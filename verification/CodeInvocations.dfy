/**
 Any sequence of `run_code` calls, for any sources, on one store.  Nothing is assumed of the tools, which may answer,
 refuse or raise as they like and differently in every call, nor of the processes that evaluate.
 */
module CodeInvocations {
  import opened CodeLanguage
  import opened CodeMode
  import opened StartLog

  /** One call of `run_code`. */
  datatype Call = Call(source: Program, hosts: Hosts, world: World)

  /** The store after the first `n` calls. */
  function StoreAfter(calls: seq<Call>, n: nat): Store
    requires n <= |calls|
    decreases n, 0
  {
    if n == 0 then NO_STORE else StoreAfter(calls, n - 1).With(calls[n - 1].source, RunOfCall(calls, n - 1))
  }

  /** What call `n` makes of its source. */
  function RunOfCall(calls: seq<Call>, n: nat): Run
    requires n < |calls|
    decreases n, 1
  {
    RunOf(StoreAfter(calls, n), calls[n].source, calls[n].hosts, calls[n].world)
  }

  /** The attempts as starts. */
  function Marks(done: seq<Attempt>): (marks: seq<Mark<Value>>)
    ensures |marks| == |done|
    ensures forall i | 0 <= i < |done| :: marks[i] == Mark(done[i].position, done[i].outcome)
  {
    seq(|done|, i requires 0 <= i < |done| => Mark(done[i].position, done[i].outcome))
  }

  /** The calls that succeeded, with their values. */
  function Recorded(done: seq<Attempt>): seq<Entry> {
    if done == [] then
      []
    else
      var before, last := Recorded(done[..|done| - 1]), done[|done| - 1];
      if last.outcome.Succeeded? then before + [Entry(last.name, last.arguments, last.outcome.value)] else before
  }

  /** The last attempt is this one. */
  predicate LastIs(done: seq<Attempt>, attempt: Attempt) {
    done != [] && done[|done| - 1] == attempt
  }

  /** The attempts are in order, the first `n` calls have been made, and `results` is what they returned. */
  ghost predicate Attempted(results: seq<Entry>, done: seq<Attempt>, n: nat) {
    && results == Recorded(done) && Orderly(Marks(done)) && Started(Marks(done)) == UpTo(n)
    && forall i | 0 <= i < |done| :: !done[i].outcome.FailedReading?
  }

  /** The status tells what became of the last attempt; otherwise the next call is the one after the recorded ones. */
  ghost predicate Consistent(exec: Execution, done: seq<Attempt>) {
    var n := |exec.results|;
    match exec.status
    case Running(name, arguments) =>
      Attempted(exec.results, done, n + 1) && LastIs(done, Attempt(n, name, arguments, Unheard))
    case AwaitingApproval(name, arguments) =>
      Attempted(exec.results, done, n) && LastIs(done, Attempt(n, name, arguments, NeedsApproval))
    case Completed(response) => Attempted(exec.results, done, n) && response.Finished?
    case Idle => Attempted(exec.results, done, n)
  }

  lemma OneMoreAttempt(results: seq<Entry>, done: seq<Attempt>, attempt: Attempt)
    requires Attempted(results, done, attempt.position) && !attempt.outcome.FailedReading?
    ensures if attempt.outcome.Succeeded? then
              Attempted(results + [Entry(attempt.name, attempt.arguments, attempt.outcome.value)], done + [attempt],
                        attempt.position + 1)
            else
              Attempted(results, done + [attempt],
                        if attempt.outcome.NeedsApproval? then attempt.position else attempt.position + 1)
  {
    StartKeepsOrder(Marks(done), Mark(attempt.position, attempt.outcome));
    assert Marks(done + [attempt]) == Marks(done) + [Mark(attempt.position, attempt.outcome)];
    assert (done + [attempt])[..|done|] == done;
  }

  /** What an answer says about the status it leaves behind. */
  predicate AnswerFits(exec: Execution, response: Response) {
    match response
    case Finished(_, _) => exec.status == Completed(response)
    case ToolException => exec.status.Running?
    case UnfinishedCall => exec.status.Running?
    case ApprovalRequired(_) => exec.status.AwaitingApproval?
    case _ => !exec.status.Running? && !exec.status.Completed?
  }

  /** Open for another round. */
  ghost predicate Open(exec: Execution, done: seq<Attempt>) {
    Consistent(exec, done) && !exec.status.Running? && !exec.status.Completed?
  }

  ghost predicate Sound(run: Run) {
    Consistent(run.exec, run.performed) && AnswerFits(run.exec, run.response)
  }

  lemma OpenIsAttempted(exec: Execution, done: seq<Attempt>)
    requires Open(exec, done)
    ensures Attempted(exec.results, done, |exec.results|)
  {
  }

  lemma CallIsSound(results: seq<Entry>, done: seq<Attempt>, name: string, arguments: Value, outcome: Outcome<Value>,
                    exec: Execution, response: Response)
    requires Attempted(results, done, |results|)
    requires match outcome
             case Unheard => exec == Execution(results, Running(name, arguments)) && response == ToolException
             case NeedsApproval =>
               exec == Execution(results, AwaitingApproval(name, arguments)) && response.ApprovalRequired?
             case Succeeded(value) =>
               exec == Execution(results + [Entry(name, arguments, value)], Idle) && response == LimitReached
             case _ => false
    ensures Sound(Run(exec, response, done + [Attempt(|results|, name, arguments, outcome)]))
  {
    OneMoreAttempt(results, done, Attempt(|results|, name, arguments, outcome));
  }

  lemma DelegateIsSound(w: World, exec: Execution, done: seq<Attempt>, name: string, arguments: Value)
    requires Open(exec, done)
    ensures Sound(Delegate(w, exec, done, name, arguments))
  {
    var run := Delegate(w, exec, done, name, arguments);
    OpenIsAttempted(exec, done);
    match Ask(w, exec.results, name, arguments)
    case Unavailable =>
    case Raised => CallIsSound(exec.results, done, name, arguments, Unheard, run.exec, run.response);
    case Refusal(_) => CallIsSound(exec.results, done, name, arguments, NeedsApproval, run.exec, run.response);
    case Answer(value) =>
      CallIsSound(exec.results, done, name, arguments, Succeeded(Wire(value)), run.exec, run.response);
  }

  lemma FinishedIsSound(exec: Execution, done: seq<Attempt>, response: Response)
    requires Open(exec, done)
    ensures response.Finished? ==> Sound(Run(Execution(exec.results, Completed(response)), response, done))
    ensures response.EvalError? ==> Sound(Run(exec, response, done))
  {
  }

  lemma RoundIsSound(host: Ops, p: Program, w: World, exec: Execution, done: seq<Attempt>)
    requires Open(exec, done)
    ensures Sound(Round(host, p, w, exec, done))
  {
    match PtcEval(host, p, exec.results)
    case Request(name, arguments) => DelegateIsSound(w, exec, done, name, arguments);
    case Result(value) => FinishedIsSound(exec, done, Finished(value, |exec.results|));
    case Error(failure) => FinishedIsSound(exec, done, EvalError(failure));
  }

  /** What every turn keeps the loop keeps. */
  lemma {:induction false} DriveKeeps(turns: Turns, open: (Execution, seq<Attempt>) -> bool, sound: Run -> bool,
                                      exec: Execution, done: seq<Attempt>, n: nat, fuel: nat)
    requires forall k: nat, e: Execution, d | open(e, d) :: sound(turns(k, e, d))
    requires forall run: Run | sound(run) && run.response == LimitReached :: open(run.exec, run.performed)
    requires open(exec, done) && sound(Run(exec, LimitReached, done))
    ensures sound(Drive(turns, exec, done, n, fuel))
    decreases fuel
  {
    if fuel > 0 {
      var run := turns(n, exec, done);
      assert sound(run);
      if run.response == LimitReached {
        DriveKeeps(turns, open, sound, run.exec, run.performed, n + 1, fuel - 1);
      }
    }
  }

  lemma DriveIsSound(hosts: Hosts, p: Program, w: World, exec: Execution, done: seq<Attempt>, fuel: nat)
    requires Open(exec, done)
    ensures Sound(Drive(TurnsOf(hosts, p, w), exec, done, 0, fuel))
  {
    var open, sound := (e: Execution, d: seq<Attempt>) => Open(e, d), (run: Run) => Sound(run);
    forall k: nat, e: Execution, d | open(e, d) ensures sound(TurnsOf(hosts, p, w)(k, e, d)) {
      RoundIsSound(hosts(k), p, w, e, d);
    }
    DriveKeeps(TurnsOf(hosts, p, w), open, sound, exec, done, 0, fuel);
  }

  lemma InvocationIsSound(hosts: Hosts, p: Program, w: World, exec: Execution, done: seq<Attempt>)
    requires Consistent(exec, done)
    ensures Sound(Invocation(TurnsOf(hosts, p, w), exec, done))
  {
    if !exec.status.Running? && !exec.status.Completed? {
      DriveIsSound(hosts, p, w, exec, done, SUBCALLS);
    }
  }

  lemma {:induction false} StoreIsConsistent(calls: seq<Call>, n: nat, source: Program)
    requires n <= |calls|
    ensures Consistent(StoreAfter(calls, n).Stored(source), StoreAfter(calls, n).Done(source))
  {
    if n > 0 {
      var store, call := StoreAfter(calls, n - 1), calls[n - 1];
      StoreIsConsistent(calls, n - 1, source);
      if call.source == source {
        InvocationIsSound(call.hosts, source, call.world, store.Stored(source), store.Done(source));
      }
    }
  }

  /**
   At most once, over any calls: of two attempts at the same call of a program the earlier one was refused for want of
   an approval.  And the stored history is exactly the calls that succeeded, in order, with the values they returned.
   */
  lemma AttemptedOnce(calls: seq<Call>, n: nat, source: Program)
    requires n <= |calls|
    ensures var done := StoreAfter(calls, n).Done(source);
            && StoreAfter(calls, n).Stored(source).results == Recorded(done)
            && forall t, u | 0 <= t < u < |done| && done[t].position == done[u].position ::
                 done[t].outcome == NeedsApproval
  {
    var done := StoreAfter(calls, n).Done(source);
    StoreIsConsistent(calls, n, source);
    OrderlyMeansNoRepeat(Marks(done));
    forall t, u | 0 <= t < u < |done| && done[t].position == done[u].position ensures done[t].outcome == NeedsApproval {
      assert Marks(done)[t].position == Marks(done)[u].position;
    }
  }

  /** What an answer says about what is stored. */
  ghost predicate Tells(response: Response, exec: Execution) {
    && (response.Finished? ==> exec.status == Completed(response))
    && (response.ApprovalRequired? ==> exec.status.AwaitingApproval?)
    && (response.ToolException? || response.UnfinishedCall? ==> exec.status.Running?)
    && (response.EvalError? || response.LimitReached? || response.UnavailableTool? ==>
          !exec.status.Running? && !exec.status.Completed?)
  }

  lemma RunTells(store: Store, call: Call)
    requires Consistent(store.Stored(call.source), store.Done(call.source))
    ensures var run := RunOf(store, call.source, call.hosts, call.world);
            Tells(run.response, run.exec)
  {
    InvocationIsSound(call.hosts, call.source, call.world, store.Stored(call.source), store.Done(call.source));
  }

  lemma AnswerTellsStatus(calls: seq<Call>, n: nat)
    requires n < |calls|
    ensures Tells(RunOfCall(calls, n).response, StoreAfter(calls, n + 1).Stored(calls[n].source))
  {
    StoreIsConsistent(calls, n, calls[n].source);
    RunTells(StoreAfter(calls, n), calls[n]);
  }

  /** Nothing is done any more for a source in this state. */
  predicate Closed(exec: Execution) {
    exec.status.Completed? || exec.status.Running?
  }

  lemma ClosedRun(store: Store, call: Call)
    requires Closed(store.Stored(call.source))
    ensures var run, exec := RunOf(store, call.source, call.hosts, call.world), store.Stored(call.source);
            && run.exec == exec && run.performed == store.Done(call.source)
            && run.response == if exec.status.Completed? then exec.status.response else UnfinishedCall
  {
  }

  lemma NextCallKeepsClosed(store: Store, call: Call, source: Program)
    requires Closed(store.Stored(source))
    ensures var after := store.With(call.source, RunOf(store, call.source, call.hosts, call.world));
            after.Stored(source) == store.Stored(source) && after.Done(source) == store.Done(source)
  {
    if call.source == source {
      ClosedRun(store, call);
    }
  }

  lemma {:induction false} StaysClosed(calls: seq<Call>, k: nat, n: nat, source: Program)
    requires k <= n <= |calls| && Closed(StoreAfter(calls, k).Stored(source))
    ensures StoreAfter(calls, n).Stored(source) == StoreAfter(calls, k).Stored(source)
    ensures StoreAfter(calls, n).Done(source) == StoreAfter(calls, k).Done(source)
    decreases n
  {
    if k < n {
      StaysClosed(calls, k, n - 1, source);
      NextCallKeepsClosed(StoreAfter(calls, n - 1), calls[n - 1], source);
    }
  }

  /**
   A finished answer is final, and so is an unfinished call: every later call for the source answers the same, or that
   the call is unfinished, and attempts nothing.
   */
  lemma ClosedSourceStaysClosed(calls: seq<Call>, k: nat, n: nat)
    requires k < n < |calls| && calls[n].source == calls[k].source
    requires var response := RunOfCall(calls, k).response;
             response.Finished? || response.ToolException? || response.UnfinishedCall?
    ensures var source := calls[k].source;
            && StoreAfter(calls, n + 1).Stored(source) == StoreAfter(calls, k + 1).Stored(source)
            && StoreAfter(calls, n + 1).Done(source) == StoreAfter(calls, k + 1).Done(source)
    ensures var response := RunOfCall(calls, k).response;
            RunOfCall(calls, n).response == if response.Finished? then response else UnfinishedCall
  {
    AnswerTellsStatus(calls, k);
    StaysClosed(calls, k + 1, n, calls[k].source);
    ClosedRun(StoreAfter(calls, n), calls[n]);
  }

  /** A call that was refused for want of an approval is the first to be attempted again, if its tool is there. */
  lemma RefusedCallIsAttemptedAgain(calls: seq<Call>, n: nat)
    requires n + 1 < |calls| && calls[n + 1].source == calls[n].source
    requires RunOfCall(calls, n).response.ApprovalRequired?
    requires var exec, next := StoreAfter(calls, n + 1).Stored(calls[n].source), calls[n + 1];
             && exec.status.AwaitingApproval?
             && PtcEval(next.hosts(0), next.source, exec.results) == Request(exec.status.name, exec.status.arguments)
             && !Ask(next.world, exec.results, exec.status.name, exec.status.arguments).Unavailable?
    ensures var done, after := StoreAfter(calls, n + 1).Done(calls[n].source), RunOfCall(calls, n + 1).performed;
            && 0 < |done| < |after| && done <= after
            && done[|done| - 1].outcome == NeedsApproval
            && after[|done|] == done[|done| - 1].(outcome := after[|done|].outcome)
  {
    var next := calls[n + 1];
    var exec, done := StoreAfter(calls, n + 1).Stored(next.source), StoreAfter(calls, n + 1).Done(next.source);
    StoreIsConsistent(calls, n + 1, next.source);
    RequestIsAttempted(next.hosts, next.source, next.world, exec, done, exec.status.name, exec.status.arguments);
  }

  /** The loop begins with the call that its first evaluation asks for. */
  lemma RequestIsAttempted(hosts: Hosts, p: Program, w: World, exec: Execution, done: seq<Attempt>, name: string,
                           arguments: Value)
    requires !Closed(exec) && PtcEval(hosts(0), p, exec.results) == Request(name, arguments)
    requires !Ask(w, exec.results, name, arguments).Unavailable?
    ensures var after := Invocation(TurnsOf(hosts, p, w), exec, done).performed;
            && |done| < |after| && done <= after
            && after[|done|].position == |exec.results| && after[|done|].name == name
            && after[|done|].arguments == arguments
  {
    var first := Round(hosts(0), p, w, exec, done);
    OneTurn(hosts, p, w, exec, done, 0, SUBCALLS);
    assert first == Delegate(w, exec, done, name, arguments);
    DriveAttempts(hosts, p, w, first.exec, first.performed, 1, SUBCALLS - 1);
  }

  lemma RoundAttempts(host: Ops, p: Program, w: World, exec: Execution, done: seq<Attempt>)
    ensures done <= Round(host, p, w, exec, done).performed
  {
  }

  /** The loop only ever adds attempts. */
  lemma {:induction false} DriveAttempts(hosts: Hosts, p: Program, w: World, exec: Execution, done: seq<Attempt>,
                                         n: nat, fuel: nat)
    ensures done <= Drive(TurnsOf(hosts, p, w), exec, done, n, fuel).performed
    decreases fuel
  {
    if fuel > 0 {
      var run := Round(hosts(n), p, w, exec, done);
      RoundAttempts(hosts(n), p, w, exec, done);
      OneTurn(hosts, p, w, exec, done, n, fuel);
      DriveAttempts(hosts, p, w, run.exec, run.performed, n + 1, fuel - 1);
    }
  }
}
