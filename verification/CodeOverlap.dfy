/**
 Overlapping invocations of `run_code` for one source.  Nothing keeps a second invocation from entering while the
 first is evaluating: the persisted status only says "running" once a tool is about to be called, and a checkpoint
 does not look at what it overwrites.
 */
module CodeOverlap {
  import opened CodeLanguage
  import opened CodeMode
  import opened StartLog

  datatype Phase =
    | Away
    | Looping(left: nat)
    | Starting(name: string, arguments: Value, left: nat)
    | InCall(name: string, arguments: Value, left: nat)

  /** An invocation works on its own copy of the results; `at` is where its last start stands in the log. */
  datatype Invoker = Invoker(results: seq<Entry>, phase: Phase, at: nat)

  datatype State = State(exec: Execution, invokers: seq<Invoker>, log: seq<Mark<Value>>)

  const INITIAL := State(FRESH, [], [])

  ghost predicate Enters(s: State, s': State) {
    && !s.exec.status.Completed? && !s.exec.status.Running?
    && s' == s.(invokers := s.invokers + [Invoker(s.exec.results, Looping(SUBCALLS), 0)])
  }

  function Moved(s: State, k: nat, inv: Invoker): State
    requires k < |s.invokers|
  {
    s.(invokers := s.invokers[k := inv])
  }

  ghost predicate Evaluates(host: Ops, p: Program, s: State, k: nat, s': State)
    requires k < |s.invokers|
  {
    var inv := s.invokers[k];
    && inv.phase.Looping?
    && if inv.phase.left == 0 then
         s' == Moved(s, k, inv.(phase := Away))
       else
         match PtcEval(host, p, inv.results)
         case Error(_) => s' == Moved(s, k, inv.(phase := Away))
         case Result(value) =>
           var status := Completed(Finished(value, |inv.results|));
           s' == Moved(s, k, inv.(phase := Away)).(exec := Execution(inv.results, status))
         case Request(name, arguments) =>
           || s' == Moved(s, k, inv.(phase := Away))  // the tool is unavailable
           || s' == Moved(s, k, inv.(phase := Starting(name, arguments, inv.phase.left)))
                    .(exec := Execution(inv.results, Running(name, arguments)))
  }

  ghost predicate Start(s: State, k: nat, s': State)
    requires k < |s.invokers|
  {
    var inv := s.invokers[k];
    && inv.phase.Starting?
    && s' == Moved(s, k, Invoker(inv.results, InCall(inv.phase.name, inv.phase.arguments, inv.phase.left), |s.log|))
             .(log := s.log + [Mark(|inv.results|, Unheard)])
  }

  ghost predicate Hears(w: World, s: State, k: nat, s': State)
    requires k < |s.invokers|
  {
    var inv := s.invokers[k];
    && inv.phase.InCall? && inv.at < |s.log|
    && var name, arguments := inv.phase.name, inv.phase.arguments;
       match Ask(w, inv.results, name, arguments)
       case Answer(value) =>
         var results := inv.results + [Entry(name, arguments, Wire(value))];
         var left := if inv.phase.left == 0 then 0 else inv.phase.left - 1;
         s' == Moved(s, k, Invoker(results, Looping(left), inv.at))
               .(exec := Execution(results, Idle),
                 log := s.log[inv.at := s.log[inv.at].(outcome := Succeeded(Wire(value)))])
       case Refusal(_) =>
         s' == Moved(s, k, inv.(phase := Away))
               .(exec := Execution(inv.results, AwaitingApproval(name, arguments)),
                 log := s.log[inv.at := s.log[inv.at].(outcome := NeedsApproval)])
       case _ => s' == Moved(s, k, inv.(phase := Away))
  }

  ghost predicate Dies(s: State, k: nat, s': State)
    requires k < |s.invokers|
  {
    s' == Moved(s, k, s.invokers[k].(phase := Away))
  }

  ghost predicate Acts(ops: Ops, p: Program, w: World, s: State, k: nat, s': State)
    requires k < |s.invokers|
  {
    || Start(s, k, s') || Hears(w, s, k, s') || Dies(s, k, s')
    || exists host :: Agrees(ops, p, host) && Evaluates(host, p, s, k, s')
  }

  ghost predicate Next(ops: Ops, p: Program, w: World, s: State, s': State) {
    Enters(s, s') || exists k | 0 <= k < |s.invokers| :: Acts(ops, p, w, s, k, s')
  }

  ghost predicate IsRun(ops: Ops, p: Program, w: World, run: seq<State>) {
    && run != [] && run[0] == INITIAL
    && forall i | 0 <= i < |run| - 1 :: Next(ops, p, w, run[i], run[i + 1])
  }

  /** However its invocations overlap, no call is started again unless its earlier start was handed back. */
  ghost predicate Safe(ops: Ops, p: Program, w: World) {
    forall run: seq<State> | IsRun(ops, p, w, run) :: NoRepeat(run[|run| - 1].log)
  }

  /** The program makes a call: its very first evaluation requests one. */
  predicate MakesACall(ops: Ops, p: Program) {
    PtcEval(ops, p, []).Request?
  }

  // ---------- Without a call nothing is ever started ----------

  ghost predicate NothingStarted(s: State) {
    && s.exec.results == [] && s.log == []
    && forall k | 0 <= k < |s.invokers| ::
         s.invokers[k].results == [] && (s.invokers[k].phase.Away? || s.invokers[k].phase.Looping?)
  }

  lemma NothingIsStarted(ops: Ops, p: Program, w: World, s: State, s': State)
    requires !MakesACall(ops, p) && NothingStarted(s) && Next(ops, p, w, s, s')
    ensures NothingStarted(s')
  {
    if !Enters(s, s') {
      var k :| 0 <= k < |s.invokers| && Acts(ops, p, w, s, k, s');
      if !Dies(s, k, s') {
        var host :| Agrees(ops, p, host) && Evaluates(host, p, s, k, s');
        EvaluationsAgree(ops, p, host, []);
      }
    }
  }

  lemma {:induction false} NothingIsEverStarted(ops: Ops, p: Program, w: World, run: seq<State>, i: nat)
    requires !MakesACall(ops, p) && IsRun(ops, p, w, run) && i < |run|
    ensures NothingStarted(run[i])
  {
    if i > 0 {
      NothingIsEverStarted(ops, p, w, run, i - 1);
      NothingIsStarted(ops, p, w, run[i - 1], run[i]);
    }
  }

  // ---------- With a call two invocations start it ----------

  lemma RunExtends(ops: Ops, p: Program, w: World, run: seq<State>, s: State)
    requires IsRun(ops, p, w, run) && Next(ops, p, w, run[|run| - 1], s)
    ensures IsRun(ops, p, w, run + [s])
  {
    var run' := run + [s];
    forall i | 0 <= i < |run'| - 1 ensures Next(ops, p, w, run'[i], run'[i + 1]) {
      assert i < |run| - 1 ==> run'[i] == run[i] && run'[i + 1] == run[i + 1];
    }
  }

  lemma RunActs(ops: Ops, p: Program, w: World, run: seq<State>, k: nat, s: State)
    requires IsRun(ops, p, w, run) && k < |run[|run| - 1].invokers| && Acts(ops, p, w, run[|run| - 1], k, s)
    ensures IsRun(ops, p, w, run + [s])
  {
    RunExtends(ops, p, w, run, s);
  }

  /** Two invocations have entered and evaluated the program, and neither has made its call. */
  lemma BothAreReady(ops: Ops, p: Program, w: World) returns (run: seq<State>)
    requires MakesACall(ops, p)
    ensures IsRun(ops, p, w, run) && run[|run| - 1].log == []
    ensures var request, s := PtcEval(ops, p, []), run[|run| - 1];
            var ready := Invoker([], Starting(request.name, request.arguments, SUBCALLS), 0);
            s.invokers == [ready, ready]
  {
    var request := PtcEval(ops, p, []);
    var name, arguments := request.name, request.arguments;
    var entered, ready := Invoker([], Looping(SUBCALLS), 0), Invoker([], Starting(name, arguments, SUBCALLS), 0);
    var busy := Execution([], Running(name, arguments));
    var s1 := State(FRESH, [entered], []);
    var s2 := State(FRESH, [entered, entered], []);
    var s3 := State(busy, [ready, entered], []);
    var s4 := State(busy, [ready, ready], []);
    assert Enters(INITIAL, s1);
    RunExtends(ops, p, w, [INITIAL], s1);
    assert Enters(s1, s2);
    RunExtends(ops, p, w, [INITIAL] + [s1], s2);
    assert Evaluates(ops, p, s2, 0, s3);
    RunActs(ops, p, w, [INITIAL] + [s1] + [s2], 0, s3);
    assert Evaluates(ops, p, s3, 1, s4);
    RunActs(ops, p, w, [INITIAL] + [s1] + [s2] + [s3], 1, s4);
    run := [INITIAL] + [s1] + [s2] + [s3] + [s4];
  }

  /** Then both make it. */
  lemma TwoInvocationsStartTheCall(ops: Ops, p: Program, w: World) returns (run: seq<State>)
    requires MakesACall(ops, p)
    ensures IsRun(ops, p, w, run) && run[|run| - 1].log == [Mark(0, Unheard), Mark(0, Unheard)]
  {
    var request := PtcEval(ops, p, []);
    var called, ready := InCall(request.name, request.arguments, SUBCALLS),
                         Invoker([], Starting(request.name, request.arguments, SUBCALLS), 0);
    var before: seq<State> := BothAreReady(ops, p, w);
    var s: State := before[|before| - 1];
    var s1 := State(s.exec, [Invoker([], called, 0), ready], [Mark(0, Unheard)]);
    var s2 := State(s.exec, [Invoker([], called, 0), Invoker([], called, 1)], [Mark(0, Unheard), Mark(0, Unheard)]);
    assert Start(s, 0, s1);
    RunActs(ops, p, w, before, 0, s1);
    assert Start(s1, 1, s2);
    RunActs(ops, p, w, before + [s1], 1, s2);
    run := before + [s1] + [s2];
  }

  /** Overlapping invocations are safe exactly for programs that make no call. */
  lemma OverlapIsSafeIffNoCall(ops: Ops, p: Program, w: World)
    ensures Safe(ops, p, w) <==> !MakesACall(ops, p)
  {
    if MakesACall(ops, p) {
      var run := TwoInvocationsStartTheCall(ops, p, w);
      var log := run[|run| - 1].log;
      assert log[0].position == log[1].position && !log[0].Cleared();
    } else {
      forall run: seq<State> | IsRun(ops, p, w, run) ensures NoRepeat(run[|run| - 1].log) {
        NothingIsEverStarted(ops, p, w, run, |run| - 1);
      }
    }
  }
}
