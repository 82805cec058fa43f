/**
 `run_code` under crashes: the same loop, cut between any two of its persisted checkpoints.

 Invocations of one source follow one another without overlapping.  A tool may also refuse for want
 of an approval, raise, or be unavailable, whenever it likes; when it answers, it answers as the
 world `w` does.
 */
module CodeCrashes {
  import opened Prelude
  import opened CodeInvocations
  import opened CodeLanguage
  import opened CodeMode
  import opened ReplayLoop
  import opened StartLog

  datatype Phase =
    | Away                                                          // no invocation is under way
    | Looping(left: nat)                                            // about to evaluate
    | Starting(name: string, arguments: Value, left: nat)           // "running" is persisted
    | InCall(name: string, arguments: Value, left: nat)             // the tool has started
    | Replied(reply: Reply, name: string, arguments: Value, left: nat)

  datatype State = State(exec: Execution, phase: Phase, log: seq<Mark<Value>>)

  const INITIAL := State(FRESH, Away, [])

  ghost predicate Begin(s: State, s': State) {
    s.phase.Away? && !s.exec.status.Completed? && !s.exec.status.Running? && s' == s.(phase := Looping(SUBCALLS))
  }

  /** An evaluation, in a process that computes as `host` does. */
  ghost predicate Evaluates(host: Ops, p: Program, s: State, s': State) {
    && s.phase.Looping?
    && if s.phase.left == 0 then
         s' == s.(phase := Away)
       else
         match PtcEval(host, p, s.exec.results)
         case Error(_) => s' == s.(phase := Away)
         case Result(value) =>
           s' == s.(phase := Away,
                    exec := Execution(s.exec.results, Completed(Finished(value, |s.exec.results|))))
         case Request(name, arguments) =>
           || s' == s.(phase := Away)  // the tool is unavailable
           || s' == s.(phase := Starting(name, arguments, s.phase.left),
                       exec := Execution(s.exec.results, Running(name, arguments)))
  }

  ghost predicate Start(s: State, s': State) {
    && s.phase.Starting?
    && s' == s.(phase := InCall(s.phase.name, s.phase.arguments, s.phase.left),
                log := s.log + [Mark(|s.exec.results|, Unheard)])
  }

  ghost predicate Replies(w: World, s: State, s': State) {
    && s.phase.InCall?
    && s'.exec == s.exec
    && match s'.phase
       case Away => s'.log == s.log  // the tool raised
       case Replied(reply, name, arguments, left) =>
         && (name, arguments, left) == (s.phase.name, s.phase.arguments, s.phase.left)
         && (match reply
             case Answer(value) =>
               && reply == Ask(w, s.exec.results, name, arguments)
               && s.log != [] && s'.log == SetLast(s.log, Succeeded(Wire(value)))
             case Refusal(_) => s.log != [] && s'.log == SetLast(s.log, NeedsApproval)
             case _ => false)
       case _ => false
  }

  ghost predicate Records(s: State, s': State) {
    && s.phase.Replied?
    && s'.log == s.log
    && match s.phase.reply
       case Answer(value) =>
         && s'.exec == Execution(s.exec.results + [Entry(s.phase.name, s.phase.arguments, Wire(value))], Idle)
         && s'.phase == Looping(if s.phase.left == 0 then 0 else s.phase.left - 1)
       case Refusal(_) =>
         && s'.exec == Execution(s.exec.results, AwaitingApproval(s.phase.name, s.phase.arguments))
         && s'.phase == Away
       case _ => false
  }

  /** The process dies, or the caller gets an answer without anything being done. */
  ghost predicate Crash(s: State, s': State) {
    s' == s.(phase := Away)
  }

  /** Every evaluation has a process of its own, which agrees with the one of the direct run. */
  ghost predicate Next(ops: Ops, p: Program, w: World, s: State, s': State) {
    || Begin(s, s') || Start(s, s') || Replies(w, s, s') || Records(s, s') || Crash(s, s')
    || exists host :: Agrees(ops, p, host) && Evaluates(host, p, s, s')
  }

  ghost predicate IsRun(ops: Ops, p: Program, w: World, run: seq<State>) {
    && run != [] && run[0] == INITIAL
    && forall i | 0 <= i < |run| - 1 :: Next(ops, p, w, run[i], run[i + 1])
  }

  ghost predicate Invariant(ops: Ops, p: Program, w: World, s: State) {
    var results, n := s.exec.results, |s.exec.results|;
    && results <= Trace(ops, p, w) && n <= Reach(ops, p, w) && OnlyApprovals(s.log)
    && (s.exec.status.Completed? ==>
          s.phase.Away? && n == Reach(ops, p, w) && s.exec.status.response == FinalResponse(ops, p, w))
    && (!s.phase.Away? && !s.phase.Looping? ==>
          && s.exec.status == Running(s.phase.name, s.phase.arguments)
          && PtcEval(ops, p, results) == Request(s.phase.name, s.phase.arguments))
    && match s.phase
       case Away => AtCall(s.log, n) || (s.exec.status.Running? && JustStarted(s.log, n))
       case Looping(_) => !s.exec.status.Running? && AtCall(s.log, n)
       case Starting(_, _, _) => AtCall(s.log, n)
       case InCall(_, _, _) => JustStarted(s.log, n)
       case Replied(reply, name, arguments, _) =>
         if reply.Refusal? then
           AtCall(s.log, n)
         else
           JustStarted(s.log, n) && reply.Answer? && reply == Ask(w, results, name, arguments)
  }

  /** A start is handed back only for want of an approval. */
  ghost predicate OnlyApprovals(log: seq<Mark<Value>>) {
    forall t | 0 <= t < |log| && log[t].Cleared() :: log[t].outcome.NeedsApproval?
  }

  /** The calls before position `n` have been started, in order, and nothing else counts. */
  ghost predicate AtCall(log: seq<Mark<Value>>, n: nat) {
    Orderly(log) && Started(log) == UpTo(n)
  }

  /** An answered request is entry `n` of the direct run's trace. */
  lemma AnswerExtendsTrace(ops: Ops, p: Program, w: World, results: seq<Entry>, name: string, arguments: Value)
    requires results <= Trace(ops, p, w) && |results| <= Reach(ops, p, w)
    requires PtcEval(ops, p, results) == Request(name, arguments) && Ask(w, results, name, arguments).Answer?
    ensures |results| < Reach(ops, p, w)
    ensures results + [Entry(name, arguments, Wire(Ask(w, results, name, arguments).value))] <= Trace(ops, p, w)
  {
    var exec := Execution(results, Idle);
    if |results| == Reach(ops, p, w) {
      LastRound(ops, ops, p, w, exec, []);
    } else {
      NextRound(ops, ops, p, w, exec, []);
    }
  }

  lemma ResultIsFinal(ops: Ops, p: Program, w: World, results: seq<Entry>, value: Value)
    requires results <= Trace(ops, p, w) && |results| <= Reach(ops, p, w)
    requires PtcEval(ops, p, results) == Result(value)
    ensures |results| == Reach(ops, p, w) && Finished(value, |results|) == FinalResponse(ops, p, w)
  {
    var exec := Execution(results, Idle);
    if |results| == Reach(ops, p, w) {
      LastRound(ops, ops, p, w, exec, []);
    } else {
      NextRound(ops, ops, p, w, exec, []);
    }
  }

  lemma ReplyKeepsInvariant(ops: Ops, p: Program, w: World, s: State, s': State)
    requires Invariant(ops, p, w, s) && Replies(w, s, s')
    ensures Invariant(ops, p, w, s') && !s.exec.status.Completed?
  {
    JustStartedFacts(s.log, |s.exec.results|, NeedsApproval);
    if s'.phase.Replied? && s'.phase.reply.Answer? {
      JustStartedFacts(s.log, |s.exec.results|, Succeeded(Wire(s'.phase.reply.value)));
    }
  }

  lemma RecordKeepsInvariant(ops: Ops, p: Program, w: World, s: State, s': State)
    requires Invariant(ops, p, w, s) && Records(s, s')
    ensures Invariant(ops, p, w, s') && !s.exec.status.Completed?
  {
    if s.phase.reply.Answer? {
      JustStartedFacts(s.log, |s.exec.results|, Unheard);
      AnswerExtendsTrace(ops, p, w, s.exec.results, s.phase.name, s.phase.arguments);
    }
  }

  lemma EvaluationKeepsInvariant(ops: Ops, p: Program, w: World, host: Ops, s: State, s': State)
    requires Invariant(ops, p, w, s) && Agrees(ops, p, host) && Evaluates(host, p, s, s')
    ensures Invariant(ops, p, w, s') && !s.exec.status.Completed?
  {
    PrefixOfTraceAgrees(ops, p, host, w, s.exec.results);
    if s'.exec.status.Completed? {
      ResultIsFinal(ops, p, w, s.exec.results, s'.exec.status.response.result);
    }
  }

  lemma NextKeepsInvariant(ops: Ops, p: Program, w: World, s: State, s': State)
    requires Invariant(ops, p, w, s) && Next(ops, p, w, s, s')
    ensures Invariant(ops, p, w, s')
    ensures s.exec.status.Completed? ==> s'.exec == s.exec && s'.log == s.log
  {
    if Replies(w, s, s') {
      ReplyKeepsInvariant(ops, p, w, s, s');
    } else if Records(s, s') {
      RecordKeepsInvariant(ops, p, w, s, s');
    } else if Start(s, s') {
      StartIsJustStarted(s.log, |s.exec.results|);
    } else if !Begin(s, s') && !Crash(s, s') {
      var host :| Agrees(ops, p, host) && Evaluates(host, p, s, s');
      EvaluationKeepsInvariant(ops, p, w, host, s, s');
    }
  }

  lemma {:induction false} RunKeepsInvariant(ops: Ops, p: Program, w: World, run: seq<State>, i: nat)
    requires IsRun(ops, p, w, run) && i < |run|
    ensures Invariant(ops, p, w, run[i])
  {
    if i > 0 {
      RunKeepsInvariant(ops, p, w, run, i - 1);
      NextKeepsInvariant(ops, p, w, run[i - 1], run[i]);
    }
  }

  /**
   Crash safety.  At every point of a run, the persisted history is a prefix of the direct run's
   trace, a completed execution holds the answer of the direct run, and a call is started again only
   when its earlier start was refused for want of an approval: never after an answer, or an end unheard of.
   */
  lemma CrashSafety(ops: Ops, p: Program, w: World, run: seq<State>, i: nat)
    requires IsRun(ops, p, w, run) && i < |run|
    ensures run[i].exec.results <= Trace(ops, p, w)
    ensures run[i].exec.status.Completed? ==> run[i].exec.status.response == FinalResponse(ops, p, w)
    ensures forall t, u | 0 <= t < u < |run[i].log| && run[i].log[t].position == run[i].log[u].position ::
              run[i].log[t].outcome == NeedsApproval
    ensures var n := |run[i].exec.results|;
            Started(run[i].log) == UpTo(n) || (run[i].exec.status.Running? && Started(run[i].log) == UpTo(n + 1))
  {
    RunKeepsInvariant(ops, p, w, run, i);
    var log := run[i].log;
    if JustStarted(log, |run[i].exec.results|) {
      JustStartedFacts(log, |run[i].exec.results|, Unheard);
    }
    OrderlyMeansNoRepeat(log);
  }

  lemma CompletedStays(ops: Ops, p: Program, w: World, run: seq<State>, i: nat)
    requires IsRun(ops, p, w, run) && i < |run| - 1 && run[i].exec.status.Completed?
    ensures run[i + 1].exec == run[i].exec && run[i + 1].log == run[i].log
  {
    RunKeepsInvariant(ops, p, w, run, i);
    NextKeepsInvariant(ops, p, w, run[i], run[i + 1]);
  }

  /** A completed execution stays as it is: no later invocation calls a tool or changes the answer. */
  lemma {:induction false} CompletedIsFinal(ops: Ops, p: Program, w: World, run: seq<State>, i: nat, j: nat)
    requires IsRun(ops, p, w, run) && i <= j < |run| && run[i].exec.status.Completed?
    ensures run[j].exec == run[i].exec && run[j].log == run[i].log
    decreases j
  {
    if i < j {
      CompletedIsFinal(ops, p, w, run, i, j - 1);
      CompletedStays(ops, p, w, run, j - 1);
    }
  }

  // ---------- An invocation that nothing cuts short is such a run ----------

  lemma RunExtends(ops: Ops, p: Program, w: World, run: seq<State>, s: State)
    requires IsRun(ops, p, w, run) && Next(ops, p, w, run[|run| - 1], s)
    ensures IsRun(ops, p, w, run + [s])
  {
    var run' := run + [s];
    forall i | 0 <= i < |run'| - 1 ensures Next(ops, p, w, run'[i], run'[i + 1]) {
      assert i < |run| - 1 ==> run'[i] == run[i] && run'[i + 1] == run[i + 1];
    }
  }

  /** The tool is called and its reply is recorded. */
  lemma CallIsARun(ops: Ops, p: Program, w: World, before: seq<State>, results: seq<Entry>, name: string,
                   arguments: Value, left: nat, log: seq<Mark<Value>>)
    returns (run: seq<State>)
    requires IsRun(ops, p, w, before) && left > 0
    requires before[|before| - 1]
          == State(Execution(results, Running(name, arguments)), Starting(name, arguments, left), log)
    requires !Ask(w, results, name, arguments).Unavailable?
    ensures var r := Delegate(w, Execution(results, Idle), [], name, arguments);
            && IsRun(ops, p, w, run) && before <= run
            && run[|run| - 1] == State(r.exec, if r.response == LimitReached then Looping(left - 1) else Away,
                                       log + Marks(r.performed))
  {
    var exec, n := Execution(results, Running(name, arguments)), |results|;
    var s1 := State(exec, InCall(name, arguments, left), log + [Mark(n, Unheard)]);
    assert Start(before[|before| - 1], s1);
    RunExtends(ops, p, w, before, s1);
    run := before + [s1];
    var reply := Ask(w, results, name, arguments);
    if reply.Raised? {
      assert Replies(w, s1, s1.(phase := Away));
      RunExtends(ops, p, w, run, s1.(phase := Away));
      run := run + [s1.(phase := Away)];
      assert Marks([Attempt(n, name, arguments, Unheard)]) == [Mark(n, Unheard)];
    } else {
      var outcome := if reply.Answer? then Succeeded(Wire(reply.value)) else NeedsApproval;
      var s2 := State(exec, Replied(reply, name, arguments, left), log + [Mark(n, outcome)]);
      assert SetLast(s1.log, outcome) == s2.log;
      assert Replies(w, s1, s2);
      RunExtends(ops, p, w, run, s2);
      var r := Delegate(w, Execution(results, Idle), [], name, arguments);
      var s3 := State(r.exec, if r.response == LimitReached then Looping(left - 1) else Away, s2.log);
      assert Records(s2, s3);
      RunExtends(ops, p, w, run + [s2], s3);
      run := run + [s2] + [s3];
      assert Marks([Attempt(n, name, arguments, outcome)]) == [Mark(n, outcome)];
    }
  }

  lemma RoundIsARun(ops: Ops, p: Program, w: World, host: Ops, before: seq<State>, exec: Execution, left: nat,
                    log: seq<Mark<Value>>)
    returns (run: seq<State>)
    requires Agrees(ops, p, host) && IsRun(ops, p, w, before) && left > 0
    requires before[|before| - 1] == State(exec, Looping(left), log)
    ensures var r := Round(host, p, w, exec, []);
            && IsRun(ops, p, w, run) && before <= run
            && run[|run| - 1] == State(r.exec, if r.response == LimitReached then Looping(left - 1) else Away,
                                       log + Marks(r.performed))
  {
    var s, r := before[|before| - 1], Round(host, p, w, exec, []);
    assert log + Marks([]) == log;
    match PtcEval(host, p, exec.results)
    case Request(name, arguments) =>
      if Ask(w, exec.results, name, arguments).Unavailable? {
        assert Evaluates(host, p, s, s.(phase := Away));
        RunExtends(ops, p, w, before, s.(phase := Away));
        run := before + [s.(phase := Away)];
      } else {
        var s1 := State(Execution(exec.results, Running(name, arguments)), Starting(name, arguments, left), log);
        assert Evaluates(host, p, s, s1);
        RunExtends(ops, p, w, before, s1);
        run := CallIsARun(ops, p, w, before + [s1], exec.results, name, arguments, left, log);
      }
    case _ =>
      assert Evaluates(host, p, s, State(r.exec, Away, log));
      RunExtends(ops, p, w, before, State(r.exec, Away, log));
      run := before + [State(r.exec, Away, log)];
  }

  lemma EarlierAttemptsStay(host: Ops, p: Program, w: World, exec: Execution, done: seq<Attempt>)
    ensures var r, r0 := Round(host, p, w, exec, done), Round(host, p, w, exec, []);
            r.exec == r0.exec && r.response == r0.response && r.performed == done + r0.performed
    ensures Marks(Round(host, p, w, exec, done).performed) == Marks(done) + Marks(Round(host, p, w, exec, []).performed)
  {
  }

  /** The same round, with the attempts made before it. */
  lemma TurnIsARun(ops: Ops, p: Program, w: World, host: Ops, before: seq<State>, exec: Execution, done: seq<Attempt>,
                   left: nat, log: seq<Mark<Value>>)
    returns (run: seq<State>)
    requires Agrees(ops, p, host) && IsRun(ops, p, w, before) && left > 0
    requires before[|before| - 1] == State(exec, Looping(left), log + Marks(done))
    ensures var r := Round(host, p, w, exec, done);
            && IsRun(ops, p, w, run) && before <= run
            && run[|run| - 1] == State(r.exec, if r.response == LimitReached then Looping(left - 1) else Away,
                                       log + Marks(r.performed))
  {
    EarlierAttemptsStay(host, p, w, exec, done);
    run := RoundIsARun(ops, p, w, host, before, exec, left, log + Marks(done));
    Associative(log, Marks(done), Marks(Round(host, p, w, exec, []).performed));
  }

  lemma {:induction false} DriveIsARun(ops: Ops, p: Program, w: World, hosts: Hosts, before: seq<State>,
                                       exec: Execution, done: seq<Attempt>, n: nat, left: nat, log: seq<Mark<Value>>)
    returns (run: seq<State>)
    requires Steady(ops, p, hosts) && IsRun(ops, p, w, before)
    requires before[|before| - 1] == State(exec, Looping(left), log + Marks(done))
    ensures IsRun(ops, p, w, run) && before <= run
    ensures var r := Drive(TurnsOf(hosts, p, w), exec, done, n, left);
            run[|run| - 1] == State(r.exec, Away, log + Marks(r.performed))
    decreases left
  {
    if left == 0 {
      var s := before[|before| - 1];
      assert Agrees(ops, p, ops) && Evaluates(ops, p, s, s.(phase := Away));
      RunExtends(ops, p, w, before, s.(phase := Away));
      run := before + [s.(phase := Away)];
    } else {
      var r := Round(hosts(n), p, w, exec, done);
      OneTurn(hosts, p, w, exec, done, n, left);
      run := TurnIsARun(ops, p, w, hosts(n), before, exec, done, left, log);
      if r.response == LimitReached {
        run := DriveIsARun(ops, p, w, hosts, run, r.exec, r.performed, n + 1, left - 1, log);
      }
    }
  }

  /**
   What `run_code` does when nothing cuts it short is one of these runs: it leaves the same execution behind, and the
   starts it adds to the log are its attempts.
   */
  lemma InvocationIsARun(ops: Ops, p: Program, w: World, hosts: Hosts, before: seq<State>) returns (run: seq<State>)
    requires Steady(ops, p, hosts) && IsRun(ops, p, w, before) && before[|before| - 1].phase.Away?
    ensures IsRun(ops, p, w, run) && before <= run
    ensures var s := before[|before| - 1];
            var r := Invocation(TurnsOf(hosts, p, w), s.exec, []);
            run[|run| - 1] == State(r.exec, Away, s.log + Marks(r.performed))
  {
    var s := before[|before| - 1];
    assert s.log + Marks([]) == s.log;
    if s.exec.status.Completed? || s.exec.status.Running? {
      run := before;
    } else {
      assert Begin(s, s.(phase := Looping(SUBCALLS)));
      RunExtends(ops, p, w, before, s.(phase := Looping(SUBCALLS)));
      run := DriveIsARun(ops, p, w, hosts, before + [s.(phase := Looping(SUBCALLS))], s.exec, [], 0, SUBCALLS, s.log);
    }
  }
}
