/** Programs that run to the end when run directly, and are rejected when they are replayed. */
module RejectedPrograms {
  import opened Prelude
  import opened CodeLanguage
  import opened CodeMode
  import opened QuietPrograms
  import opened ReplayLoop
  import opened ReplayTheorem

  lemma EvalAllOne(m: Machine, e: Expr, v: Value)
    requires Eval(m, e, NAMESPACE, NO_CALLS) == Ok(v, NO_CALLS)
    ensures EvalAll(m, [e], NAMESPACE, NO_CALLS) == Ok([v], NO_CALLS)
  {
    assert [e][1..] == [];
    assert [v] + [] == [v];
  }

  lemma EvalAllTwo(m: Machine, e: Expr, v: Value, e': Expr, v': Value)
    requires Eval(m, e, NAMESPACE, NO_CALLS) == Ok(v, NO_CALLS) && Eval(m, e', NAMESPACE, NO_CALLS) == Ok(v', NO_CALLS)
    ensures EvalAll(m, [e, e'], NAMESPACE, NO_CALLS) == Ok([v, v'], NO_CALLS)
  {
    EvalAllOne(m, e', v');
    assert [e, e'][1..] == [e'];
    assert [v] + [v'] == [v, v'];
  }

  lemma ApplyEvaluates(m: Machine, op: Operator, es: seq<Expr>, vs: seq<Value>, v: Value)
    requires EvalAll(m, es, NAMESPACE, NO_CALLS) == Ok(vs, NO_CALLS) && Operate(m.ops, op, vs) == Some(v)
    ensures Eval(m, Apply(op, es), NAMESPACE, NO_CALLS) == Ok(v, NO_CALLS)
  {
  }

  lemma CallEvaluates(m: Machine, es: seq<Expr>, name: string, arguments: Value)
    requires EvalAll(m, es, NAMESPACE, NO_CALLS) == Ok([Str(name), arguments], NO_CALLS) && arguments.Dict?
    ensures Eval(m, Call("call", es), NAMESPACE, NO_CALLS) == CallTool(m.mode, name, arguments, NO_CALLS)
  {
  }

  function ObligingWorld(): World {
    (trace, name, arguments) => Answer(Null)
  }

  /** `call('t', arguments)` and nothing else. */
  function OneCall(arguments: Expr): Program {
    [Evaluate(Call("call", [Const(Str("t")), arguments]))]
  }

  /** The expression stands for these arguments, and they can be sent. */
  ghost predicate Sends(ops: Ops, e: Expr, arguments: Value) {
    && AcceptedExpr(e)
    && Eval(Machine(ops, Direct(ObligingWorld())), e, NAMESPACE, NO_CALLS) == Ok(arguments, NO_CALLS)
    && arguments.Dict? && Encodable(arguments)
  }

  lemma OneCallIsAccepted(e: Expr)
    requires AcceptedExpr(e)
    ensures Accepted(OneCall(e))
  {
    assert AcceptedExpr(Const(Str("t")));
    assert AcceptedExpr(Call("call", [Const(Str("t")), e]));
  }

  lemma BlockOfOne(m: Machine, s: Stmt, env: Env, c: Calls)
    requires Exec(m, s, NAMESPACE, NO_CALLS) == Ok(env, c)
    ensures ExecBlock(m, [s], NAMESPACE, NO_CALLS) == Ok(env, c)
  {
    assert [s][1..] == [];
    assert ExecBlock(m, [], env, c) == Ok(env, c);
  }

  /** The direct run makes the call and goes on to the end. */
  lemma OneCallRunsDirectly(ops: Ops, e: Expr, arguments: Value)
    requires Sends(ops, e, arguments)
    ensures DirectRun(ops, OneCall(e), ObligingWorld())
         == Ok(NAMESPACE, Calls([Entry("t", Wire(arguments), Null)], [arguments]))
  {
    var m := Machine(ops, Direct(ObligingWorld()));
    EvalAllTwo(m, Const(Str("t")), Str("t"), e, arguments);
    CallEvaluates(m, [Const(Str("t")), e], "t", arguments);
    var entry := Entry("t", Wire(arguments), Null);
    assert NO_CALLS.trace + [entry] == [entry] && NO_CALLS.sent + [arguments] == [arguments];
    assert CallTool(m.mode, "t", arguments, NO_CALLS) == Ok(Null, Calls([entry], [arguments]));
    OneCallIsAccepted(e);
    BlockOfOne(m, OneCall(e)[0], NAMESPACE, Calls([entry], [arguments]));
  }

  /** The program runs to its end directly, and the loop's first invocation rejects its own history. */
  ghost predicate RunsButIsRejected(ops: Ops, fleet: Fleet, p: Program) {
    && DirectRun(ops, p, ObligingWorld()).Ok?
    && Invocations(fleet, p, ObligingWorld(), 1).response == EvalError(ReplayChanged)
  }

  lemma QuietCallIsSteady(ops: Ops, fleet: Fleet, e: Expr)
    requires QuietExpr(e) && AllAlike(ops, fleet)
    ensures Quiet(OneCall(e)) && AllSteady(ops, OneCall(e), fleet)
  {
    assert QuietExpr(Const(Str("t")));
    assert QuietExpr(Call("call", [Const(Str("t")), e]));
    forall j, n ensures Agrees(ops, OneCall(e), fleet(j)(n)) {
      assert Alike(ops, fleet(j)(n));
    }
  }

  /** The replay makes the same call and then rejects its own history. */
  lemma UnstableCallIsRejected(ops: Ops, fleet: Fleet, e: Expr, arguments: Value)
    requires Sends(ops, e, arguments) && !Plain(arguments) && AllSteady(ops, OneCall(e), fleet)
    ensures RunsButIsRejected(ops, fleet, OneCall(e))
  {
    var p, w := OneCall(e), ObligingWorld();
    OneCallRunsDirectly(ops, e, arguments);
    StableIffPlain(arguments);
    assert InvocationsNeeded(ops, p, w) == 1;
    InvocationsFinish(ops, fleet, p, w);
  }

  lemma BuildDictOfOne(k: Value, v: Value)
    requires Hashable(k)
    ensures BuildDict([k, v]) == Some(Dict([k], map[k := v]))
  {
    var args := [k, v];
    assert args[..|args| - 2] == [];
    assert BuildDict([]) == Some(Dict([], map[]));
    assert FindKey([], k) == None;
    var order: seq<Value> := [];
    assert order + [k] == [k];
  }

  lemma DictEvaluates(m: Machine, k: Value, e: Expr, v: Value)
    requires Hashable(k) && Eval(m, e, NAMESPACE, NO_CALLS) == Ok(v, NO_CALLS)
    ensures Eval(m, Apply(MakeDict, [Const(k), e]), NAMESPACE, NO_CALLS) == Ok(Dict([k], map[k := v]), NO_CALLS)
  {
    EvalAllTwo(m, Const(k), k, e, v);
    BuildDictOfOne(k, v);
    ApplyEvaluates(m, MakeDict, [Const(k), e], [k, v], Dict([k], map[k := v]));
  }

  /** {'x': e} */
  function DictX(e: Expr): Expr {
    Apply(MakeDict, [Const(Str("x")), e])
  }

  lemma DictXSends(ops: Ops, e: Expr, v: Value)
    requires AcceptedExpr(e) && Encodable(v)
    requires Eval(Machine(ops, Direct(ObligingWorld())), e, NAMESPACE, NO_CALLS) == Ok(v, NO_CALLS)
    ensures Sends(ops, DictX(e), Dict([Str("x")], map[Str("x") := v]))
  {
    DictEvaluates(Machine(ops, Direct(ObligingWorld())), Str("x"), e, v);
    assert AcceptedExpr(Const(Str("x")));
  }

  lemma DictXIsRejected(ops: Ops, fleet: Fleet, e: Expr, v: Value)
    requires QuietExpr(e) && AllAlike(ops, fleet) && AcceptedExpr(e) && Encodable(v) && !Plain(v)
    requires Eval(Machine(ops, Direct(ObligingWorld())), e, NAMESPACE, NO_CALLS) == Ok(v, NO_CALLS)
    ensures RunsButIsRejected(ops, fleet, OneCall(DictX(e)))
  {
    DictXSends(ops, e, v);
    var arguments := Dict([Str("x")], map[Str("x") := v]);
    assert !Plain(arguments.fields[Str("x")]);
    assert QuietExpr(Const(Str("x"))) && QuietExpr(DictX(e));
    QuietCallIsSteady(ops, fleet, DictX(e));
    UnstableCallIsRejected(ops, fleet, DictX(e), arguments);
  }

  /** call('t', {'x': ()}) runs directly, and is rejected by the loop. */
  lemma TupleIsRejected(ops: Ops, fleet: Fleet)
    requires AllAlike(ops, fleet)
    ensures RunsButIsRejected(ops, fleet, OneCall(DictX(Apply(MakeTuple, []))))
  {
    ApplyEvaluates(Machine(ops, Direct(ObligingWorld())), MakeTuple, [], [], Tuple([]));
    DictXIsRejected(ops, fleet, Apply(MakeTuple, []), Tuple([]));
  }

  /** So is call('t', {'x': {1: 2}}). */
  lemma NumberAsKeyIsRejected(ops: Ops, fleet: Fleet)
    requires AllAlike(ops, fleet)
    ensures RunsButIsRejected(ops, fleet, OneCall(DictX(Apply(MakeDict, [Const(Int(1)), Const(Int(2))]))))
  {
    var inner := Dict([Int(1)], map[Int(1) := Int(2)]);
    DictEvaluates(Machine(ops, Direct(ObligingWorld())), Int(1), Const(Int(2)), Int(2));
    assert AcceptedExpr(Const(Int(1))) && AcceptedExpr(Const(Int(2)));
    assert QuietExpr(Const(Int(1))) && QuietExpr(Const(Int(2)));
    assert Int(1) in inner.fields && !Int(1).Str?;
    DictXIsRejected(ops, fleet, Apply(MakeDict, [Const(Int(1)), Const(Int(2))]), inner);
  }

  /** So is call('t', {'x': float('nan')}). */
  lemma NanIsRejected(ops: Ops, fleet: Fleet)
    requires AllAlike(ops, fleet) && ops.builtin("float", [Str("nan")]) == Some(Float(Nan(false)))
    ensures RunsButIsRejected(ops, fleet, OneCall(DictX(Call("float", [Const(Str("nan"))]))))
  {
    EvalAllOne(Machine(ops, Direct(ObligingWorld())), Const(Str("nan")), Str("nan"));
    assert AcceptedExpr(Const(Str("nan"))) && QuietExpr(Const(Str("nan")));
    DictXIsRejected(ops, fleet, Call("float", [Const(Str("nan"))]), Float(Nan(false)));
  }

  /** {'x': str(call)} */
  function AddressDict(): Expr {
    DictX(Call("str", [Name("call")]))
  }

  lemma AddressDictEvaluates(m: Machine, text: string)
    requires m.ops.builtin("str", [Function("call")]) == Some(Str(text))
    ensures Eval(m, AddressDict(), NAMESPACE, NO_CALLS) == Ok(AddressArguments(text), NO_CALLS)
  {
    EvalAllOne(m, Name("call"), Function("call"));
    DictEvaluates(m, Str("x"), Call("str", [Name("call")]), Str(text));
  }

  lemma TextsDiffer(key: Value, text: string, text': string)
    requires key.Str? && text != text'
    ensures !Equal(Wire(Dict([key], map[key := Str(text)])), Dict([key], map[key := Str(text')]))
  {
    var fields := map[key := Str(text)];
    WireOfStringKeys([key], fields, key);
    EntriesDiffer(Wire(Dict([key], fields)), Dict([key], map[key := Str(text')]), key);
  }

  lemma BlockHalts(m: Machine, e: Expr, stop: Stop, c: Calls)
    requires Eval(m, e, NAMESPACE, NO_CALLS) == Halt(stop, c)
    ensures ExecBlock(m, [Evaluate(e)], NAMESPACE, NO_CALLS) == Halt(stop, c)
  {
    assert Exec(m, Evaluate(e), NAMESPACE, NO_CALLS) == Halt(stop, c);
  }

  /** An evaluation that makes the recorded call with other arguments rejects the history. */
  lemma ChangedCallIsRejected(ops: Ops, e: Expr, recorded: Value, arguments: Value)
    requires AcceptedExpr(e) && arguments.Dict? && !Equal(recorded, arguments)
    requires Eval(Machine(ops, Replay([Entry("t", recorded, Null)])), e, NAMESPACE, NO_CALLS) == Ok(arguments, NO_CALLS)
    ensures PtcEval(ops, OneCall(e), [Entry("t", recorded, Null)]) == Error(ReplayChanged)
  {
    var m := Machine(ops, Replay([Entry("t", recorded, Null)]));
    EvalAllTwo(m, Const(Str("t")), Str("t"), e, arguments);
    CallEvaluates(m, [Const(Str("t")), e], "t", arguments);
    OneCallIsAccepted(e);
    var r := CallTool(m.mode, "t", arguments, NO_CALLS);
    BlockHalts(m, Call("call", [Const(Str("t")), e]), r.stop, r.c);
  }

  function AddressArguments(text: string): Value {
    Dict([Str("x")], map[Str("x") := Str(text)])
  }

  lemma AddressIsRequested(ops: Ops, text: string)
    requires ops.builtin("str", [Function("call")]) == Some(Str(text))
    ensures DirectRun(ops, OneCall(AddressDict()), ObligingWorld()).Ok?
    ensures Trace(ops, OneCall(AddressDict()), ObligingWorld()) == [Entry("t", Wire(AddressArguments(text)), Null)]
    ensures Reach(ops, OneCall(AddressDict()), ObligingWorld()) == 1
  {
    AddressDictIsAccepted();
    AddressDictEvaluates(Machine(ops, Direct(ObligingWorld())), text);
    OneCallRunsDirectly(ops, AddressDict(), AddressArguments(text));
  }

  lemma OtherAddressIsRejected(later: Ops, text: string, text': string)
    requires later.builtin("str", [Function("call")]) == Some(Str(text')) && text != text'
    ensures PtcEval(later, OneCall(AddressDict()), [Entry("t", Wire(AddressArguments(text)), Null)])
         == Error(ReplayChanged)
  {
    AddressDictIsAccepted();
    AddressDictEvaluates(Machine(later, Replay([Entry("t", Wire(AddressArguments(text)), Null)])), text');
    TextsDiffer(Str("x"), text, text');
    ChangedCallIsRejected(later, AddressDict(), Wire(AddressArguments(text)), AddressArguments(text'));
  }

  /**
   A program that sends the text of `call` is not quiet.  Its first evaluation requests call('t', {'x': str(call)}),
   and the second, in which `call` has another address, rejects the answer.
   */
  lemma AddressIsRejected(fleet: Fleet, text: string, text': string)
    requires fleet(1)(0).builtin("str", [Function("call")]) == Some(Str(text))
    requires fleet(1)(1).builtin("str", [Function("call")]) == Some(Str(text')) && text != text'
    ensures !QuietExpr(AddressDict()) && RunsButIsRejected(fleet(1)(0), fleet, OneCall(AddressDict()))
  {
    AddressIsRequested(fleet(1)(0), text);
    OtherAddressIsRejected(fleet(1)(1), text, text');
    FirstTwoRounds(fleet, OneCall(AddressDict()), ObligingWorld(), [Entry("t", Wire(AddressArguments(text)), Null)]);
    AddressDictIsNotQuiet();
  }

  lemma AddressDictIsNotQuiet()
    ensures !QuietExpr(AddressDict())
  {
    var call := Call("str", [Name("call")]);
    assert !QuietExpr(call.arguments[0]);
    assert !QuietExpr(AddressDict().operands[1]);
  }

  /** A round that makes the only call of the direct run, and one that rejects it, are an invocation. */
  lemma FirstTwoRounds(fleet: Fleet, p: Program, w: World, history: seq<Entry>)
    requires |history| == 1 && Trace(fleet(1)(0), p, w) == history && Reach(fleet(1)(0), p, w) == 1
    requires PtcEval(fleet(1)(1), p, history) == Error(ReplayChanged)
    ensures Invocations(fleet, p, w, 1).response == EvalError(ReplayChanged)
  {
    var turns := TurnsOf(fleet(1), p, w);
    NextRound(fleet(1)(0), fleet(1)(0), p, w, FRESH, []);
    var first := turns(0, FRESH, []);
    assert history[..1] == history;
    assert first.exec.results == history && first.response == LimitReached;
    assert turns(1, first.exec, first.performed).response == EvalError(ReplayChanged);
    assert Drive(turns, FRESH, [], 0, SUBCALLS) == Drive(turns, first.exec, first.performed, 1, SUBCALLS - 1);
  }

  lemma AddressDictIsAccepted()
    ensures AcceptedExpr(AddressDict())
  {
    assert AcceptedExpr(Const(Str("x"))) && AcceptedExpr(Name("call")) && AcceptedExpr(Call("str", [Name("call")]));
  }
}
