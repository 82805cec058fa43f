/**
 What programs mean: laws between a construct and simpler ones, in any environment, with any calls already made, and in
 either mode.  Together they determine the evaluator; none of them mentions how it is defined.
 */
module ProgramLaws {
  import opened Prelude
  import opened CodeLanguage
  import opened CodeMode
  import opened QuietPrograms
  import opened ReplayLoop
  import opened ReplayTheorem

  // ---------- Statements ----------

  /** A block runs its parts one after the other, and stops where one of them stops. */
  lemma {:induction false} Sequence(m: Machine, a: seq<Stmt>, b: seq<Stmt>, env: Env, c: Calls)
    ensures ExecBlock(m, a + b, env, c)
         == (var (env1, c1) :- ExecBlock(m, a, env, c); ExecBlock(m, b, env1, c1))
    decreases |a|
  {
    if a == [] {
      assert a + b == b;
    } else {
      assert (a + b)[1..] == a[1..] + b;
      var first := Exec(m, a[0], env, c);
      if first.Ok? {
        Sequence(m, a[1..], b, first.v, first.c);
      }
    }
  }

  lemma OneFirst(m: Machine, s: Stmt, rest: seq<Stmt>, env: Env, c: Calls)
    ensures ExecBlock(m, [s] + rest, env, c)
         == (var (env1, c1) :- Exec(m, s, env, c); ExecBlock(m, rest, env1, c1))
  {
    assert ([s] + rest)[1..] == rest;
  }

  /** An assignment binds the name to the value and nothing else; an expression alone binds nothing. */
  lemma AssignmentBinds(m: Machine, x: string, e: Expr, rest: seq<Stmt>, env: Env, c: Calls)
    ensures ExecBlock(m, [Assign(x, e)] + rest, env, c)
         == (var (v, c1) :- Eval(m, e, env, c); ExecBlock(m, rest, env[x := v], c1))
    ensures ExecBlock(m, [Evaluate(e)] + rest, env, c)
         == (var (_, c1) :- Eval(m, e, env, c); ExecBlock(m, rest, env, c1))
  {
    OneFirst(m, Assign(x, e), rest, env, c);
    OneFirst(m, Evaluate(e), rest, env, c);
  }

  /** `if` runs as its test and then, before the rest, the first block if that is true and the second if it is not. */
  lemma IfRunsTheChosenBlock(m: Machine, t: Expr, a: seq<Stmt>, b: seq<Stmt>, rest: seq<Stmt>, env: Env, c: Calls)
    ensures ExecBlock(m, [If(t, a, b)] + rest, env, c)
         == (var (v, c1) :- Eval(m, t, env, c); ExecBlock(m, (if Truthy(v) then a else b) + rest, env, c1))
  {
    OneFirst(m, If(t, a, b), rest, env, c);
    match Eval(m, t, env, c)
    case Ok(v, c1) => Sequence(m, if Truthy(v) then a else b, rest, env, c1);
    case Halt(_, _) =>
  }

  /** False are None, False, the number zero, and whatever holds nothing. */
  lemma FalseValues(v: Value)
    ensures !Truthy(v) <==>
              || v == Null || v == Bool(false) || v == Int(0) || (v.Float? && v.f.Finite? && v.f.value == 0.0)
              || Iterate(v) == Some([])
  {
    match v
    case Str(s) => assert |Iterate(v).value| == |s|;
    case Range(elements) => assert |Iterate(v).value| == |elements|;
    case _ =>
  }

  /** `for` over something that holds nothing runs as its operand; what cannot be iterated over stops the program. */
  lemma ForOverNothing(m: Machine, x: string, e: Expr, body: seq<Stmt>, rest: seq<Stmt>, env: Env, c: Calls)
    ensures ExecBlock(m, [For(x, e, body)] + rest, env, c).Ok? ==> Eval(m, e, env, c).Ok?
    ensures Eval(m, e, env, c).Halt? ==>
              ExecBlock(m, [For(x, e, body)] + rest, env, c) == Halt(Eval(m, e, env, c).stop, Eval(m, e, env, c).c)
    ensures Eval(m, e, env, c).Ok? && Iterate(Eval(m, e, env, c).v).None? ==>
              ExecBlock(m, [For(x, e, body)] + rest, env, c) == Halt(Failed(BadOperand), Eval(m, e, env, c).c)
    ensures Eval(m, e, env, c).Ok? && Iterate(Eval(m, e, env, c).v) == Some([]) ==>
              ExecBlock(m, [For(x, e, body)] + rest, env, c) == ExecBlock(m, rest, env, Eval(m, e, env, c).c)
  {
    OneFirst(m, For(x, e, body), rest, env, c);
  }

  /** Otherwise it binds the first item, runs the body, and goes on with the items that are left. */
  lemma ForRunsTheBodyForEachItem(m: Machine, x: string, e: Expr, body: seq<Stmt>, rest: seq<Stmt>, env: Env, c: Calls,
                                  v: Value, c1: Calls)
    requires Eval(m, e, env, c) == Ok(v, c1) && Iterate(v).Some? && Iterate(v).value != []
    ensures ExecBlock(m, [For(x, e, body)] + rest, env, c)
         == ExecBlock(m, [Assign(x, Const(Iterate(v).value[0]))] + body
                         + [For(x, Const(List(Iterate(v).value[1..])), body)] + rest, env, c1)
  {
    var items := Iterate(v).value;
    var first, others := Assign(x, Const(items[0])), For(x, Const(List(items[1..])), body);
    var env1 := env[x := items[0]];
    assert [first] + body + [others] + rest == [first] + (body + ([others] + rest));
    OneFirst(m, For(x, e, body), rest, env, c);
    OneFirst(m, first, body + ([others] + rest), env, c1);
    Sequence(m, body, [others] + rest, env1, c1);
    match ExecBlock(m, body, env1, c1)
    case Ok(env2, c2) => OneFirst(m, others, rest, env2, c2);
    case Halt(_, _) =>
  }

  /** What there is to iterate over: characters, items, keys in their order, numbers. */
  lemma ItemsInOrder(v: Value, i: nat)
    requires Iterate(v).Some? && i < |Iterate(v).value|
    ensures v.Str? ==> |v.s| == |Iterate(v).value| && Iterate(v).value[i] == Str(v.s[i..i + 1])
    ensures v.List? || v.Tuple? ==> |v.items| == |Iterate(v).value| && Iterate(v).value[i] == v.items[i]
    ensures v.Dict? ==> |v.order| == |Iterate(v).value| && Iterate(v).value[i] == v.order[i]
    ensures v.Range? ==> |v.elements| == |Iterate(v).value| && Iterate(v).value[i] == Int(v.elements[i])
    ensures v.Str? || v.List? || v.Tuple? || v.Dict? || v.Range?
  {
  }

  // ---------- Expressions ----------

  /** A constant is its value, and a name what it was bound to last; a program begins with ten functions. */
  lemma NamesAndConstants(m: Machine, x: string, v: Value, env: Env, c: Calls)
    ensures Eval(m, Const(v), env, c) == Ok(v, c)
    ensures Eval(m, Name(x), env[x := v], c) == Ok(v, c)
    ensures x !in env ==> Eval(m, Name(x), env, c) == Halt(Failed(UndefinedName), c)
    ensures x in NAMESPACE <==> x in {"call", "len", "range", "str", "int", "float", "sum", "min", "max", "sorted"}
    ensures x in NAMESPACE ==> NAMESPACE[x] == Function(x)
  {
  }

  /** `a if t else b` assigned is the `if` statement with the two assignments. */
  lemma ConditionalIsIf(m: Machine, x: string, t: Expr, a: Expr, b: Expr, env: Env, c: Calls)
    ensures ExecBlock(m, [Assign(x, IfExp(t, a, b))], env, c)
         == ExecBlock(m, [If(t, [Assign(x, a)], [Assign(x, b)])], env, c)
  {
    assert [Assign(x, IfExp(t, a, b))][1..] == [] && [Assign(x, a)][1..] == [] && [Assign(x, b)][1..] == [];
    assert [If(t, [Assign(x, a)], [Assign(x, b)])][1..] == [];
    match Eval(m, t, env, c)
    case Ok(v, c1) =>
      OneFirst(m, Assign(x, if Truthy(v) then a else b), [], env, c1);
      assert [Assign(x, if Truthy(v) then a else b)] + [] == if Truthy(v) then [Assign(x, a)] else [Assign(x, b)];
    case Halt(_, _) =>
  }

  /** `l and r` is `r if l else l`, and `l or r` is `l if l else r`, with `l` evaluated once. */
  lemma ShortCircuitsAreConditionals(m: Machine, l: Expr, r: Expr, env: Env, c: Calls)
    ensures Eval(m, And(l, r), env, c)
         == (var (v, c1) :- Eval(m, l, env, c); Eval(m, IfExp(Const(v), r, Const(v)), env, c1))
    ensures Eval(m, Or(l, r), env, c)
         == (var (v, c1) :- Eval(m, l, env, c); Eval(m, IfExp(Const(v), Const(v), r), env, c1))
  {
  }

  lemma OneOperand(m: Machine, e: Expr, env: Env, c: Calls)
    ensures EvalAll(m, [e], env, c) == (var (v, c1) :- Eval(m, e, env, c); Ok([v], c1))
  {
    assert [e][1..] == [];
    if Eval(m, e, env, c).Ok? {
      assert [Eval(m, e, env, c).v] + [] == [Eval(m, e, env, c).v];
    }
  }

  lemma TwoOperands(m: Machine, l: Expr, r: Expr, env: Env, c: Calls)
    ensures EvalAll(m, [l, r], env, c)
         == (var (v, c1) :- Eval(m, l, env, c); var (w, c2) :- Eval(m, r, env, c1); Ok([v, w], c2))
  {
    assert [l, r][1..] == [r];
    if Eval(m, l, env, c).Ok? {
      var v, c1 := Eval(m, l, env, c).v, Eval(m, l, env, c).c;
      OneOperand(m, r, env, c1);
      if Eval(m, r, env, c1).Ok? {
        assert [v] + [Eval(m, r, env, c1).v] == [v, Eval(m, r, env, c1).v];
      }
    }
  }

  /** A single comparison is the operator applied to both sides. */
  lemma ComparisonIsOperator(m: Machine, l: Expr, symbol: string, r: Expr, env: Env, c: Calls)
    ensures Eval(m, Compare(l, [Link(symbol, r)]), env, c) == Eval(m, Apply(Primitive(symbol), [l, r]), env, c)
  {
    TwoOperands(m, l, r, env, c);
  }

  lemma ComparisonIsLinks(m: Machine, l: Expr, links: seq<Link>, env: Env, c: Calls)
    ensures Eval(m, Compare(l, links), env, c)
         == (var (v, c1) :- Eval(m, l, env, c); EvalLinks(m, v, links, env, c1))
  {
  }

  /** What a chain makes of its first comparison. */
  function Linked(m: Machine, v: Value, symbol: string, w: Value, more: seq<Link>, env: Env, c: Calls): Res<Value> {
    var t := m.ops.primitive(symbol, [v, w]);
    if t.None? then Halt(Failed(BadOperand), c)
    else if Truthy(t.value) then EvalLinks(m, w, more, env, c)
    else Ok(t.value, c)
  }

  lemma FirstLink(m: Machine, v: Value, symbol: string, r: Expr, more: seq<Link>, env: Env, c: Calls)
    requires more != []
    ensures EvalLinks(m, v, [Link(symbol, r)] + more, env, c)
         == (var (w, c1) :- Eval(m, r, env, c); Linked(m, v, symbol, w, more, env, c1))
  {
    var links := [Link(symbol, r)] + more;
    assert links[0] == Link(symbol, r) && links[1..] == more && |links| > 1;
  }

  lemma ChainOfValues(m: Machine, v: Value, symbol: string, w: Value, more: seq<Link>, env: Env, c: Calls)
    ensures Eval(m, And(Compare(Const(v), [Link(symbol, Const(w))]), Compare(Const(w), more)), env, c)
         == Linked(m, v, symbol, w, more, env, c)
  {
    ComparisonIsOperator(m, Const(v), symbol, Const(w), env, c);
    OperatorsOnValues(m, symbol, [Const(v), Const(w)], [v, w], env, c);
    ComparisonIsLinks(m, Const(w), more, env, c);
    var first, second := Compare(Const(v), [Link(symbol, Const(w))]), Compare(Const(w), more);
    assert Eval(m, And(first, second), env, c)
        == (var (t, c1) :- Eval(m, first, env, c); if Truthy(t) then Eval(m, second, env, c1) else Ok(t, c1));
  }

  /** `v < w < more` is `v < w and w < more`, with `v` and `w` evaluated once. */
  lemma ChainIsConjunction(m: Machine, l: Expr, symbol: string, r: Expr, more: seq<Link>, env: Env, c: Calls)
    requires more != []
    ensures Eval(m, Compare(l, [Link(symbol, r)] + more), env, c)
         == (var (v, c1) :- Eval(m, l, env, c);
             var (w, c2) :- Eval(m, r, env, c1);
             Eval(m, And(Compare(Const(v), [Link(symbol, Const(w))]), Compare(Const(w), more)), env, c2))
  {
    ComparisonIsLinks(m, l, [Link(symbol, r)] + more, env, c);
    if Eval(m, l, env, c).Ok? {
      var v, c1 := Eval(m, l, env, c).v, Eval(m, l, env, c).c;
      FirstLink(m, v, symbol, r, more, env, c1);
      if Eval(m, r, env, c1).Ok? {
        ChainOfValues(m, v, symbol, Eval(m, r, env, c1).v, more, env, Eval(m, r, env, c1).c);
      }
    }
  }

  /** The operands are evaluated from left to right: the first that is not yet a value comes next. */
  lemma {:induction false} LeftmostFirst(m: Machine, es: seq<Expr>, i: nat, env: Env, c: Calls)
    requires i < |es| && forall j | 0 <= j < i :: es[j].Const?
    ensures EvalAll(m, es, env, c)
         == (var (v, c1) :- Eval(m, es[i], env, c); EvalAll(m, es[i := Const(v)], env, c1))
    decreases i
  {
    var next := Eval(m, es[i], env, c);
    if i == 0 {
      if next.Ok? {
        assert es[0 := Const(next.v)][1..] == es[1..];
      }
    } else {
      assert es[1..][i - 1] == es[i];
      LeftmostFirst(m, es[1..], i - 1, env, c);
      if next.Ok? {
        assert es[i := Const(next.v)][1..] == es[1..][i - 1 := Const(next.v)];
      }
    }
  }

  /** The same for every construct with operands, and for calls. */
  lemma OperandsFromLeftToRight(m: Machine, op: Operator, f: string, es: seq<Expr>, i: nat, env: Env, c: Calls)
    requires i < |es| && forall j | 0 <= j < i :: es[j].Const?
    ensures Eval(m, Apply(op, es), env, c)
         == (var (v, c1) :- Eval(m, es[i], env, c); Eval(m, Apply(op, es[i := Const(v)]), env, c1))
    ensures f in env ==>
              Eval(m, Call(f, es), env, c)
              == (var (v, c1) :- Eval(m, es[i], env, c); Eval(m, Call(f, es[i := Const(v)]), env, c1))
  {
    LeftmostFirst(m, es, i, env, c);
  }

  lemma {:induction false} ValuesAreThemselves(m: Machine, es: seq<Expr>, vs: seq<Value>, env: Env, c: Calls)
    requires |es| == |vs| && forall j | 0 <= j < |es| :: es[j] == Const(vs[j])
    ensures EvalAll(m, es, env, c) == Ok(vs, c)
  {
    if es != [] {
      ValuesAreThemselves(m, es[1..], vs[1..], env, c);
      assert [vs[0]] + vs[1..] == vs;
    }
  }

  /** Displays and operators on values; None stands for a Python exception. */
  lemma OperatorsOnValues(m: Machine, symbol: string, es: seq<Expr>, vs: seq<Value>, env: Env, c: Calls)
    requires |es| == |vs| && forall j | 0 <= j < |es| :: es[j] == Const(vs[j])
    ensures Eval(m, Apply(MakeList, es), env, c) == Ok(List(vs), c)
    ensures Eval(m, Apply(MakeTuple, es), env, c) == Ok(Tuple(vs), c)
    ensures var d := BuildDict(vs);
            Eval(m, Apply(MakeDict, es), env, c) == if d.Some? then Ok(d.value, c) else Halt(Failed(BadOperand), c)
    ensures var v := m.ops.primitive(symbol, vs);
            Eval(m, Apply(Primitive(symbol), es), env, c)
            == if v.Some? then Ok(v.value, c) else Halt(Failed(BadOperand), c)
  {
    ValuesAreThemselves(m, es, vs, env, c);
  }

  /** Calling a built-in on values; a name that is bound to no function cannot be called. */
  lemma BuiltinsOnValues(m: Machine, f: string, es: seq<Expr>, vs: seq<Value>, env: Env, c: Calls)
    requires |es| == |vs| && forall j | 0 <= j < |es| :: es[j] == Const(vs[j])
    requires f in env && env[f] != Function("call") && env[f] != Function("range")
    ensures var r := if env[f].Function? then m.ops.builtin(env[f].name, vs) else None;
            Eval(m, Call(f, es), env, c) == if r.Some? then Ok(r.value, c) else Halt(Failed(BadOperand), c)
  {
    ValuesAreThemselves(m, es, vs, env, c);
  }

  /** Calling `range` on values; the elements are the subject of `CodeLanguage.RangeElements` and `ValueLaws`. */
  lemma RangeOnValues(m: Machine, f: string, es: seq<Expr>, vs: seq<Value>, env: Env, c: Calls)
    requires |es| == |vs| && forall j | 0 <= j < |es| :: es[j] == Const(vs[j])
    requires f in env && env[f] == Function("range")
    ensures var r := BoundedRange(vs);
            Eval(m, Call(f, es), env, c) == if r.Some? then Ok(Range(r.value), c) else Halt(Failed(LoopBound), c)
  {
    ValuesAreThemselves(m, es, vs, env, c);
  }

  lemma CallOnValues(m: Machine, f: string, name: string, arguments: Value, env: Env, c: Calls)
    requires f in env && env[f] == Function("call") && arguments.Dict?
    ensures Eval(m, Call(f, [Const(Str(name)), Const(arguments)]), env, c) == CallTool(m.mode, name, arguments, c)
  {
    ValuesAreThemselves(m, [Const(Str(name)), Const(arguments)], [Str(name), arguments], env, c);
  }

  /**
   The bridged call, run directly: the tool gets the arguments as JSON has them, the program gets the answer as JSON has
   it, and both are put on record.  What the host does not answer stops the program.
   */
  lemma DirectCallIsAnswered(m: Machine, f: string, name: string, arguments: Value, env: Env, c: Calls)
    requires m.mode.Direct? && f in env && env[f] == Function("call") && arguments.Dict?
    ensures
      var reply := m.mode.world(c.trace, name, Wire(arguments));
      Eval(m, Call(f, [Const(Str(name)), Const(arguments)]), env, c)
         == if !Encodable(arguments) then
              Halt(Failed(Unserializable), c)
            else if reply.Answer? && Encodable(reply.value) then
              Ok(Wire(reply.value),
                 Calls(c.trace + [Entry(name, Wire(arguments), Wire(reply.value))], c.sent + [arguments]))
            else
              Halt(Stopped(if reply.Answer? then Raised else reply, name, Wire(arguments)), c)
  {
    CallOnValues(m, f, name, arguments, env, c);
  }

  /** The bridged call, replayed: it takes the next recorded value, refuses another call, or suspends with a request. */
  lemma ReplayedCallIsLookedUp(m: Machine, f: string, name: string, arguments: Value, env: Env, c: Calls)
    requires m.mode.Replay? && f in env && env[f] == Function("call") && arguments.Dict?
    ensures var n, history := |c.trace|, m.mode.history;
            var r := Eval(m, Call(f, [Const(Str(name)), Const(arguments)]), env, c);
            if n >= |history| then
              r == Halt(if Encodable(arguments) then Pending(name, Wire(arguments)) else Failed(Unserializable), c)
            else if history[n].name == name && Equal(history[n].arguments, arguments) then
              r == Ok(history[n].value, Calls(c.trace + [history[n]], c.sent + [arguments]))
            else
              r.Halt? && r.stop == Failed(ReplayChanged)
  {
    CallOnValues(m, f, name, arguments, env, c);
  }

  /** Anything but a name and a dictionary is no call. */
  lemma OtherCallsAreBad(m: Machine, f: string, es: seq<Expr>, vs: seq<Value>, env: Env, c: Calls)
    requires |es| == |vs| && forall j | 0 <= j < |es| :: es[j] == Const(vs[j])
    requires f in env && env[f] == Function("call") && !(|vs| == 2 && vs[0].Str? && vs[1].Dict?)
    ensures Eval(m, Call(f, es), env, c) == Halt(Failed(BadCall), c)
  {
    ValuesAreThemselves(m, es, vs, env, c);
  }

  // ---------- Whole programs ----------

  /** A program that ends without setting `result` answers null; otherwise with the JSON form of what it set. */
  lemma ResultOfRun(ops: Ops, p: Program, w: World)
    requires DirectRun(ops, p, w).Ok?
    ensures
      var env, n := DirectRun(ops, p, w).v, |Trace(ops, p, w)|;
      DirectResponse(ops, p, w)
         == if "result" !in env then Finished(Null, n)
            else if Encodable(env["result"]) then Finished(Wire(env["result"]), n)
            else EvalError(Unserializable)
  {
  }

  lemma SettingTheResult(ops: Ops, p: Program, e: Expr, w: World, env: Env, c: Calls, v: Value, c1: Calls)
    requires Accepted(p) && AcceptedExpr(e) && DirectRun(ops, p, w) == Ok(env, c)
    requires Eval(Machine(ops, Direct(w)), e, env, c) == Ok(v, c1)
    ensures Accepted(p + [Assign("result", e)])
    ensures DirectRun(ops, p + [Assign("result", e)], w) == Ok(env["result" := v], c1)
  {
    var m, last := Machine(ops, Direct(w)), Assign("result", e);
    Sequence(m, p, [last], NAMESPACE, NO_CALLS);
    assert [last] + [] == [last];
    AssignmentBinds(m, "result", e, [], env, c);
  }

  /** A program that ends in `result = e` answers with the JSON form of the value of `e` there. */
  lemma ResultIsAnswered(ops: Ops, p: Program, e: Expr, w: World, env: Env, c: Calls, v: Value, c1: Calls)
    requires Accepted(p) && AcceptedExpr(e) && DirectRun(ops, p, w) == Ok(env, c)
    requires Eval(Machine(ops, Direct(w)), e, env, c) == Ok(v, c1) && Encodable(v)
    ensures DirectResponse(ops, p + [Assign("result", e)], w) == Finished(Wire(v), |c1.trace|)
  {
    SettingTheResult(ops, p, e, w, env, c, v, c1);
    ResultOfRun(ops, p + [Assign("result", e)], w);
  }

  /** So does the replaying loop, for quiet programs on processes that compute alike, if its calls are plain. */
  lemma LoopAnswersResult(ops: Ops, fleet: Fleet, p: Program, e: Expr, w: World, env: Env, c: Calls, v: Value,
                          c1: Calls)
    requires Accepted(p) && AcceptedExpr(e) && DirectRun(ops, p, w) == Ok(env, c)
    requires Eval(Machine(ops, Direct(w)), e, env, c) == Ok(v, c1) && Encodable(v)
    requires Quiet(p) && QuietExpr(e) && AllAlike(ops, fleet) && forall i | 0 <= i < |c1.sent| :: Plain(c1.sent[i])
    ensures var q := p + [Assign("result", e)];
            Invocations(fleet, q, w, InvocationsNeeded(ops, q, w)).response == Finished(Wire(v), |c1.trace|)
  {
    var q := p + [Assign("result", e)];
    assert Quiet(q);
    SettingTheResult(ops, p, e, w, env, c, v, c1);
    ResultIsAnswered(ops, p, e, w, env, c, v, c1);
    ReplayMeansDirectRun(ops, fleet, q, w);
  }

  /** A program that the static walk rejects calls nothing. */
  lemma RejectedCallsNothing(ops: Ops, p: Program, w: World, history: seq<Entry>)
    requires !Accepted(p)
    ensures PtcEval(ops, p, history) == Error(Rejected)
    ensures DirectRun(ops, p, w) == Halt(Failed(Rejected), NO_CALLS)
  {
  }

  /** Every name that is read in an expression. */
  function NamesIn(e: Expr): set<string> {
    match e
    case Const(_) => {}
    case Name(id) => {id}
    case Apply(_, es) => set i, x | 0 <= i < |es| && x in NamesIn(es[i]) :: x
    case Call(_, es) => set i, x | 0 <= i < |es| && x in NamesIn(es[i]) :: x
    case And(l, r) => NamesIn(l) + NamesIn(r)
    case Or(l, r) => NamesIn(l) + NamesIn(r)
    case IfExp(c, a, b) => NamesIn(c) + NamesIn(a) + NamesIn(b)
    case Compare(l, links) => NamesIn(l) + set i, x | 0 <= i < |links| && x in NamesIn(links[i].right) :: x
  }

  /** Every function that is called in it. */
  function CalledIn(e: Expr): set<string> {
    match e
    case Const(_) => {}
    case Name(_) => {}
    case Apply(_, es) => set i, f | 0 <= i < |es| && f in CalledIn(es[i]) :: f
    case Call(f, es) => {f} + set i, g | 0 <= i < |es| && g in CalledIn(es[i]) :: g
    case And(l, r) => CalledIn(l) + CalledIn(r)
    case Or(l, r) => CalledIn(l) + CalledIn(r)
    case IfExp(c, a, b) => CalledIn(c) + CalledIn(a) + CalledIn(b)
    case Compare(l, links) => CalledIn(l) + set i, f | 0 <= i < |links| && f in CalledIn(links[i].right) :: f
  }

  predicate PublicNames(names: set<string>) {
    forall x | x in names :: x == "" || x[0] != '_'
  }

  predicate KnownFunctions(names: set<string>) {
    names <= {"call", "len", "range", "str", "int", "float", "sum", "min", "max", "sorted"}
  }

  lemma {:induction false} ExpressionsAccepted(e: Expr)
    ensures AcceptedExpr(e) <==> PublicNames(NamesIn(e)) && KnownFunctions(CalledIn(e))
  {
    match e
    case Const(_) =>
    case Name(_) =>
    case Apply(_, es) => OperandsAccepted(es);
    case Call(f, es) => OperandsAccepted(es);
    case And(l, r) => ExpressionsAccepted(l); ExpressionsAccepted(r);
    case Or(l, r) => ExpressionsAccepted(l); ExpressionsAccepted(r);
    case IfExp(c, a, b) => ExpressionsAccepted(c); ExpressionsAccepted(a); ExpressionsAccepted(b);
    case Compare(l, links) =>
      ExpressionsAccepted(l);
      forall i | 0 <= i < |links|
        ensures AcceptedExpr(links[i].right)
           <==> PublicNames(NamesIn(links[i].right)) && KnownFunctions(CalledIn(links[i].right))
      {
        ExpressionsAccepted(links[i].right);
      }
  }

  lemma {:induction false} OperandsAccepted(es: seq<Expr>)
    ensures forall i | 0 <= i < |es| ::
              AcceptedExpr(es[i]) <==> PublicNames(NamesIn(es[i])) && KnownFunctions(CalledIn(es[i]))
  {
    forall i | 0 <= i < |es|
      ensures AcceptedExpr(es[i]) <==> PublicNames(NamesIn(es[i])) && KnownFunctions(CalledIn(es[i]))
    {
      ExpressionsAccepted(es[i]);
    }
  }

  /** The same for statements; an assignment and a loop also name what they bind. */
  function NamesOf(s: Stmt): set<string>
    decreases s, 1
  {
    match s
    case Assign(x, e) => {x} + NamesIn(e)
    case Evaluate(e) => NamesIn(e)
    case If(c, a, b) => NamesIn(c) + NamesOfAll(a) + NamesOfAll(b)
    case For(x, e, body) => {x} + NamesIn(e) + NamesOfAll(body)
  }

  function NamesOfAll(ss: seq<Stmt>): set<string>
    decreases ss, 0
  {
    set i, x | 0 <= i < |ss| && x in NamesOf(ss[i]) :: x
  }

  function CalledOf(s: Stmt): set<string>
    decreases s, 1
  {
    match s
    case Assign(_, e) => CalledIn(e)
    case Evaluate(e) => CalledIn(e)
    case If(c, a, b) => CalledIn(c) + CalledOfAll(a) + CalledOfAll(b)
    case For(_, e, body) => CalledIn(e) + CalledOfAll(body)
  }

  function CalledOfAll(ss: seq<Stmt>): set<string>
    decreases ss, 0
  {
    set i, f | 0 <= i < |ss| && f in CalledOf(ss[i]) :: f
  }

  lemma {:induction false} StatementAccepted(s: Stmt)
    ensures AcceptedStmt(s) <==> PublicNames(NamesOf(s)) && KnownFunctions(CalledOf(s))
    decreases s, 1
  {
    match s
    case Assign(_, e) => ExpressionsAccepted(e);
    case Evaluate(e) => ExpressionsAccepted(e);
    case If(c, a, b) =>
      ExpressionsAccepted(c);
      WalkAccepts(a);
      WalkAccepts(b);
      assert AcceptedStmt(s) <==> AcceptedExpr(c) && Accepted(a) && Accepted(b);
    case For(x, e, body) =>
      ExpressionsAccepted(e);
      WalkAccepts(body);
      assert AcceptedStmt(s) <==> Public(x) && AcceptedExpr(e) && Accepted(body);
  }

  /** The walk accepts exactly the programs without a private name that call nothing but the ten functions. */
  lemma {:induction false} WalkAccepts(p: Program)
    ensures Accepted(p) <==> PublicNames(NamesOfAll(p)) && KnownFunctions(CalledOfAll(p))
    decreases p, 0
  {
    forall i | 0 <= i < |p|
      ensures AcceptedStmt(p[i]) <==> PublicNames(NamesOf(p[i])) && KnownFunctions(CalledOf(p[i]))
    {
      StatementAccepted(p[i]);
    }
  }

  /** `if True: call('a', {})` with `else: call('b', {})` asks for `a`. */
  lemma TrueBranchCalls(ops: Ops)
    ensures
      var call := (name: string) => Call("call", [Const(Str(name)), Const(Dict([], map[]))]);
      var p := [If(Const(Bool(true)), [Evaluate(call("a"))], [Evaluate(call("b"))])];
      PtcEval(ops, p, []) == Request("a", Dict([], map[]))
  {
    var call := (name: string) => Call("call", [Const(Str(name)), Const(Dict([], map[]))]);
    var a, b := call("a"), call("b");
    var p, m := [If(Const(Bool(true)), [Evaluate(a)], [Evaluate(b)])], Machine(ops, Replay([]));
    assert AcceptedExpr(a) && AcceptedExpr(b);
    assert AcceptedStmt([Evaluate(a)][0]) && AcceptedStmt([Evaluate(b)][0]);
    assert Accepted(p);
    assert p + [] == p;
    IfRunsTheChosenBlock(m, Const(Bool(true)), [Evaluate(a)], [Evaluate(b)], [], NAMESPACE, NO_CALLS);
    ReplayedCallIsLookedUp(m, "call", "a", Dict([], map[]), NAMESPACE, NO_CALLS);
    assert [Evaluate(a)] + [] == [Evaluate(a)];
    AssignmentBinds(m, "", a, [], NAMESPACE, NO_CALLS);
    assert Wire(Dict([], map[])) == Dict([], map[]);
  }
}
