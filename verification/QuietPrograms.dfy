/**
 Every evaluation of a program runs in a process of its own.  What the operators and built-ins compute is the same
 in all of them, with one exception: the text of `call` and of `range`, the two functions that `ptc_eval` itself
 defines, holds an address.  A program that names these two only to call them never sees the difference.
 */
module QuietPrograms {
  import opened Prelude
  import opened CodeLanguage
  import opened ReplayTheorem

  /** The functions whose text holds an address. */
  const ADDRESSED := {"call", "range"}

  /** Neither of them is the value or inside it. */
  predicate Closed(v: Value) {
    match v
    case List(items) => forall i | 0 <= i < |items| :: Closed(items[i])
    case Tuple(items) => forall i | 0 <= i < |items| :: Closed(items[i])
    case Dict(order, fields) =>
      && (forall i | 0 <= i < |order| :: Closed(order[i]))
      && (forall k | k in fields :: Closed(k) && Closed(fields[k]))
    case Function(name) => name !in ADDRESSED
    case _ => true
  }

  predicate AllClosed(vs: seq<Value>) {
    forall i | 0 <= i < |vs| :: Closed(vs[i])
  }

  /** `call` and `range` are named only to call them. */
  predicate QuietExpr(e: Expr) {
    match e
    case Const(v) => Closed(v)
    case Name(id) => id !in ADDRESSED
    case Apply(_, es) => forall i | 0 <= i < |es| :: QuietExpr(es[i])
    case Call(_, es) => forall i | 0 <= i < |es| :: QuietExpr(es[i])
    case And(l, r) => QuietExpr(l) && QuietExpr(r)
    case Or(l, r) => QuietExpr(l) && QuietExpr(r)
    case IfExp(c, a, b) => QuietExpr(c) && QuietExpr(a) && QuietExpr(b)
    case Compare(l, links) => QuietExpr(l) && forall i | 0 <= i < |links| :: QuietExpr(links[i].right)
  }

  predicate QuietStmt(s: Stmt) {
    match s
    case Assign(_, e) => QuietExpr(e)
    case Evaluate(e) => QuietExpr(e)
    case If(c, a, b) =>
      && QuietExpr(c)
      && (forall i | 0 <= i < |a| :: QuietStmt(a[i]))
      && (forall i | 0 <= i < |b| :: QuietStmt(b[i]))
    case For(_, e, body) => QuietExpr(e) && forall i | 0 <= i < |body| :: QuietStmt(body[i])
  }

  predicate Quiet(p: Program) {
    forall i | 0 <= i < |p| :: QuietStmt(p[i])
  }

  /** A result that two processes have in common. */
  predicate Common(r: Option<Value>, r': Option<Value>) {
    r == r' && (r.Some? ==> Closed(r.value))
  }

  /** Operators and built-ins of two processes: of values without the two functions they compute the same. */
  ghost predicate Alike(o: Ops, o': Ops) {
    && (forall symbol, args | AllClosed(args) :: Common(o.primitive(symbol, args), o'.primitive(symbol, args)))
    && (forall name, args | AllClosed(args) :: Common(o.builtin(name, args), o'.builtin(name, args)))
  }

  predicate ClosedEnv(env: Env) {
    forall x | x in env && x !in ADDRESSED :: Closed(env[x])
  }

  predicate ClosedHistory(history: seq<Entry>) {
    forall i | 0 <= i < |history| :: Closed(history[i].value)
  }

  /** What JSON gives back holds no function at all. */
  lemma {:induction false} WireIsClosed(v: Value)
    requires Encodable(v)
    ensures Closed(Wire(v))
  {
    match v
    case List(items) =>
      forall i | 0 <= i < |items| ensures Closed(Wire(items[i])) {
        WireIsClosed(items[i]);
      }
    case Tuple(items) =>
      forall i | 0 <= i < |items| ensures Closed(Wire(items[i])) {
        WireIsClosed(items[i]);
      }
    case Dict(order, fields) =>
      TextOrderIsDistinct(order, fields);
      forall k | k in TextKeys(order, fields) ensures Closed(Wire(fields[Source(order, fields, k)])) {
        WireIsClosed(fields[Source(order, fields, k)]);
      }
    case _ =>
  }

  /** Two evaluations in the same mode agree, and the result is closed. */
  ghost predicate Same<T(!new)>(closed: T -> bool, r: Res<T>, r': Res<T>) {
    r == r' && (r.Ok? ==> closed(r.v))
  }

  /** The answers of the mode are closed: in a direct run they come through JSON. */
  predicate ClosedMode(mode: Mode) {
    mode.Replay? ==> ClosedHistory(mode.history)
  }

  lemma CallIsClosed(mode: Mode, name: string, args: Value, c: Calls)
    requires ClosedMode(mode)
    ensures CallTool(mode, name, args, c).Ok? ==> Closed(CallTool(mode, name, args, c).v)
  {
    if mode.Direct? && Encodable(args) {
      var reply := Ask(mode.world, c.trace, name, Wire(args));
      if reply.Answer? {
        WireIsClosed(reply.value);
      }
    }
  }

  lemma {:induction false} FoundIsInOrder(order: seq<Value>, key: Value)
    ensures FindKey(order, key).Some? ==> FindKey(order, key).value in order
  {
    if order != [] {
      FoundIsInOrder(order[1..], key);
    }
  }

  lemma EntryIsClosed(order: seq<Value>, fields: map<Value, Value>, k: Value, value: Value)
    requires Closed(Dict(order, fields)) && Closed(k) && Closed(value)
    ensures Closed(Dict(order, fields[k := value])) && Closed(Dict(order + [k], fields[k := value]))
  {
  }

  lemma {:induction false} BuildDictIsClosed(args: seq<Value>)
    requires AllClosed(args)
    ensures BuildDict(args).Some? ==> Closed(BuildDict(args).value)
  {
    if |args| >= 2 {
      var before, key, value := BuildDict(args[..|args| - 2]), args[|args| - 2], args[|args| - 1];
      BuildDictIsClosed(args[..|args| - 2]);
      if before.Some? {
        var order, fields := before.value.order, before.value.fields;
        FoundIsInOrder(order, key);
        EntryIsClosed(order, fields, key, value);
        if FindKey(order, key).Some? {
          EntryIsClosed(order, fields, FindKey(order, key).value, value);
        }
      }
    }
  }

  lemma OperateAlike(o: Ops, o': Ops, op: Operator, args: seq<Value>)
    requires Alike(o, o') && AllClosed(args)
    ensures Common(Operate(o, op, args), Operate(o', op, args))
  {
    match op
    case MakeDict => BuildDictIsClosed(args);
    case Primitive(symbol) => assert Common(o.primitive(symbol, args), o'.primitive(symbol, args));
    case _ =>
  }

  lemma InvokeAlike(o: Ops, o': Ops, mode: Mode, f: Value, args: seq<Value>, c: Calls)
    requires Alike(o, o') && ClosedMode(mode) && AllClosed(args)
    ensures Same(Closed, Invoke(Machine(o, mode), f, args, c), Invoke(Machine(o', mode), f, args, c))
  {
    if f == Function("call") && |args| == 2 && args[0].Str? && args[1].Dict? {
      CallIsClosed(mode, args[0].s, args[1], c);
    } else if f.Function? && f.name !in ADDRESSED {
      assert Common(o.builtin(f.name, args), o'.builtin(f.name, args));
    }
  }

  lemma {:induction false} EvalAlike(o: Ops, o': Ops, mode: Mode, e: Expr, env: Env, c: Calls)
    requires Alike(o, o') && ClosedMode(mode) && QuietExpr(e) && ClosedEnv(env)
    ensures Same(Closed, Eval(Machine(o, mode), e, env, c), Eval(Machine(o', mode), e, env, c))
    decreases e, 1
  {
    var m, m' := Machine(o, mode), Machine(o', mode);
    match e
    case Const(_) =>
    case Name(_) =>
    case Apply(op, es) =>
      EvalAllAlike(o, o', mode, es, env, c);
      var r := EvalAll(m, es, env, c);
      if r.Ok? {
        OperateAlike(o, o', op, r.v);
      }
    case Call(f, es) =>
      EvalAllAlike(o, o', mode, es, env, c);
      var r := EvalAll(m, es, env, c);
      if r.Ok? && f in env {
        InvokeAlike(o, o', mode, env[f], r.v, r.c);
      }
    case And(l, r) =>
      EvalAlike(o, o', mode, l, env, c);
      var first := Eval(m, l, env, c);
      if first.Ok? {
        EvalAlike(o, o', mode, r, env, first.c);
      }
    case Or(l, r) =>
      EvalAlike(o, o', mode, l, env, c);
      var first := Eval(m, l, env, c);
      if first.Ok? {
        EvalAlike(o, o', mode, r, env, first.c);
      }
    case IfExp(t, a, b) =>
      EvalAlike(o, o', mode, t, env, c);
      var first := Eval(m, t, env, c);
      if first.Ok? {
        EvalAlike(o, o', mode, if Truthy(first.v) then a else b, env, first.c);
      }
    case Compare(l, links) =>
      EvalAlike(o, o', mode, l, env, c);
      var first := Eval(m, l, env, c);
      if first.Ok? {
        EvalLinksAlike(o, o', mode, first.v, links, env, first.c);
      }
  }

  lemma {:induction false} EvalLinksAlike(o: Ops, o': Ops, mode: Mode, v: Value, links: seq<Link>, env: Env, c: Calls)
    requires Alike(o, o') && ClosedMode(mode) && ClosedEnv(env) && Closed(v)
    requires forall i | 0 <= i < |links| :: QuietExpr(links[i].right)
    ensures Same(Closed, EvalLinks(Machine(o, mode), v, links, env, c), EvalLinks(Machine(o', mode), v, links, env, c))
    decreases links, 0
  {
    if links != [] {
      var symbol, right := links[0].symbol, links[0].right;
      EvalAlike(o, o', mode, right, env, c);
      var first := Eval(Machine(o, mode), right, env, c);
      if first.Ok? {
        assert AllClosed([v, first.v]);
        assert Common(o.primitive(symbol, [v, first.v]), o'.primitive(symbol, [v, first.v]));
        EvalLinksAlike(o, o', mode, first.v, links[1..], env, first.c);
      }
    }
  }

  lemma {:induction false} EvalAllAlike(o: Ops, o': Ops, mode: Mode, es: seq<Expr>, env: Env, c: Calls)
    requires Alike(o, o') && ClosedMode(mode) && ClosedEnv(env) && forall i | 0 <= i < |es| :: QuietExpr(es[i])
    ensures Same(AllClosed, EvalAll(Machine(o, mode), es, env, c), EvalAll(Machine(o', mode), es, env, c))
    decreases es, 0
  {
    if es != [] {
      EvalAlike(o, o', mode, es[0], env, c);
      var first := Eval(Machine(o, mode), es[0], env, c);
      if first.Ok? {
        EvalAllAlike(o, o', mode, es[1..], env, first.c);
      }
    }
  }

  lemma IterateIsClosed(v: Value)
    requires Closed(v)
    ensures Iterate(v).Some? ==> AllClosed(Iterate(v).value)
  {
  }

  lemma {:induction false} ExecAlike(o: Ops, o': Ops, mode: Mode, s: Stmt, env: Env, c: Calls)
    requires Alike(o, o') && ClosedMode(mode) && QuietStmt(s) && ClosedEnv(env)
    ensures Same(ClosedEnv, Exec(Machine(o, mode), s, env, c), Exec(Machine(o', mode), s, env, c))
    decreases s, 1
  {
    var e := match s case Assign(_, e) => e case Evaluate(e) => e case If(e, _, _) => e case For(_, e, _) => e;
    EvalAlike(o, o', mode, e, env, c);
    var first := Eval(Machine(o, mode), e, env, c);
    if first.Ok? {
      match s
      case If(_, a, b) => ExecBlockAlike(o, o', mode, if Truthy(first.v) then a else b, env, first.c);
      case For(x, _, body) =>
        IterateIsClosed(first.v);
        if Iterate(first.v).Some? {
          ExecForAlike(o, o', mode, x, Iterate(first.v).value, body, env, first.c);
        }
      case _ =>
    }
  }

  lemma {:induction false} ExecBlockAlike(o: Ops, o': Ops, mode: Mode, ss: seq<Stmt>, env: Env, c: Calls)
    requires Alike(o, o') && ClosedMode(mode) && ClosedEnv(env) && Quiet(ss)
    ensures Same(ClosedEnv, ExecBlock(Machine(o, mode), ss, env, c), ExecBlock(Machine(o', mode), ss, env, c))
    decreases ss, 0
  {
    if ss != [] {
      ExecAlike(o, o', mode, ss[0], env, c);
      var first := Exec(Machine(o, mode), ss[0], env, c);
      if first.Ok? {
        ExecBlockAlike(o, o', mode, ss[1..], first.v, first.c);
      }
    }
  }

  lemma {:induction false} ExecForAlike(
      o: Ops, o': Ops, mode: Mode, x: string, items: seq<Value>, body: seq<Stmt>, env: Env, c: Calls)
    requires Alike(o, o') && ClosedMode(mode) && ClosedEnv(env) && Quiet(body) && AllClosed(items)
    ensures Same(ClosedEnv, ExecFor(Machine(o, mode), x, items, body, env, c),
                 ExecFor(Machine(o', mode), x, items, body, env, c))
    decreases body, 1, |items|
  {
    if items != [] {
      var env1 := env[x := items[0]];
      ExecBlockAlike(o, o', mode, body, env1, c);
      var first := ExecBlock(Machine(o, mode), body, env1, c);
      if first.Ok? {
        ExecForAlike(o, o', mode, x, items[1..], body, first.v, first.c);
      }
    }
  }
}
