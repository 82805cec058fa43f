/**
 The code-mode language of `ptc_eval` (src/lightworker/sandbox_helper.py) and its evaluator.

 The evaluator runs in one of two modes.  In `Replay` mode a `call` is answered from a recorded
 history and the first unrecorded call suspends the program, as in the source.  In `Direct` mode a
 `call` is answered at once by the tools: that is the meaning the replay has to preserve.
 */
module CodeLanguage {
  import opened Prelude

  /** A finite float is a number and the text that `repr` gives for it. */
  datatype Float =
    | Finite(value: real, text: string)
    | Infinite(negative: bool)
    | Nan(decoded: bool)  // `decoded` for the one object that json.loads uses for every NaN

  /** Python values.  `Dict` keeps its insertion order in `order`; `==` on dictionaries ignores it. */
  datatype Value =
    | Null
    | Bool(b: bool)
    | Int(n: int)
    | Float(f: Float)
    | Str(s: string)
    | List(items: seq<Value>)
    | Tuple(items: seq<Value>)
    | Dict(order: seq<Value>, fields: map<Value, Value>)
    | Range(elements: seq<int>)
    | Function(name: string)

  /** json.dumps accepts the value as a key. */
  predicate EncodableKey(k: Value) {
    k.Null? || k.Bool? || k.Int? || k.Float? || k.Str?
  }

  /** json.dumps accepts the value. */
  predicate Encodable(v: Value) {
    match v
    case List(items) => forall i | 0 <= i < |items| :: Encodable(items[i])
    case Tuple(items) => forall i | 0 <= i < |items| :: Encodable(items[i])
    case Dict(_, fields) => forall k | k in fields :: EncodableKey(k) && Encodable(fields[k])
    case Range(_) => false
    case Function(_) => false
    case _ => true
  }

  function Digits(n: nat): string {
    if n < 10 then ["0123456789"[n]] else Digits(n / 10) + ["0123456789"[n % 10]]
  }

  /** The string that a key becomes in JSON; keys that are refused have none. */
  function KeyText(k: Value): string {
    match k
    case Null => "null"
    case Bool(b) => if b then "true" else "false"
    case Int(n) => if n < 0 then "-" + Digits(-n) else Digits(n)
    case Float(Finite(_, text)) => text
    case Float(Infinite(negative)) => if negative then "-Infinity" else "Infinity"
    case Float(Nan(_)) => "NaN"
    case Str(s) => s
    case _ => ""
  }

  /** The keys of a dictionary in its JSON form. */
  function TextKeys(order: seq<Value>, fields: map<Value, Value>): set<Value> {
    (set k | k in fields && k.Str?) + (set k | k in order && k in fields :: Str(KeyText(k)))
  }

  /** The keys in the order in which json.loads meets them first. */
  function TextOrder(order: seq<Value>, fields: map<Value, Value>): seq<Value> {
    if order == [] then
      []
    else
      var last, before := order[|order| - 1], TextOrder(order[..|order| - 1], fields);
      if last in fields && Str(KeyText(last)) !in before then before + [Str(KeyText(last))] else before
  }

  /** Of the keys that become the same text, the one whose value is read back: the last. */
  function Source(order: seq<Value>, fields: map<Value, Value>, key: Value): (k: Value)
    requires key in TextKeys(order, fields)
    ensures k in fields && (k == key || (k in order && Str(KeyText(k)) == key))
  {
    if order == [] then
      key
    else
      var last := order[|order| - 1];
      if last in fields && Str(KeyText(last)) == key then last else Source(order[..|order| - 1], fields, key)
  }

  /** What json.loads gives back: tuples have become lists, keys have become strings, every NaN the same object. */
  function Wire(v: Value): Value {
    match v
    case List(items) => List(seq(|items|, i requires 0 <= i < |items| => Wire(items[i])))
    case Tuple(items) => List(seq(|items|, i requires 0 <= i < |items| => Wire(items[i])))
    case Dict(order, fields) =>
      Dict(TextOrder(order, fields),
           map k | k in TextKeys(order, fields) :: Wire(fields[Source(order, fields, k)]))
    case Float(Nan(_)) => Float(Nan(true))
    case _ => v
  }

  predicate IsNumber(v: Value) {
    v.Bool? || v.Int? || (v.Float? && v.f.Finite?)
  }

  function Amount(v: Value): real
    requires IsNumber(v)
  {
    match v
    case Bool(b) => if b then 1.0 else 0.0
    case Int(n) => n as real
    case Float(Finite(value, _)) => value
  }

  /**
   Python's comparison of values inside containers: numbers of different types compare by amount, a tuple never
   equals a list, dictionaries ignore order, and a NaN equals nothing but the very same object.
   */
  predicate Equal(a: Value, b: Value)
    decreases a, 1
  {
    match (a, b)
    case (List(xs), List(ys)) => |xs| == |ys| && forall i | 0 <= i < |xs| :: Equal(xs[i], ys[i])
    case (Tuple(xs), Tuple(ys)) => |xs| == |ys| && forall i | 0 <= i < |xs| :: Equal(xs[i], ys[i])
    case (Dict(_, f), Dict(_, g)) => (forall k | k in f :: HasEntry(b, a, k)) && (forall l | l in g :: HasKey(a, l))
    case (Float(Nan(x)), Float(Nan(y))) => x && y
    case _ => if IsNumber(a) && IsNumber(b) then Amount(a) == Amount(b) else a == b
  }

  /** Dictionary `b` has the entry of `a` under key `k`. */
  predicate HasEntry(b: Value, a: Value, k: Value)
    requires a.Dict? && b.Dict? && k in a.fields
    decreases a, 0
  {
    exists l | l in b.fields :: Equal(k, l) && Equal(a.fields[k], b.fields[l])
  }

  /** Dictionary `a` has a key that equals `l`. */
  predicate HasKey(a: Value, l: Value)
    requires a.Dict?
    decreases a, 0
  {
    exists k | k in a.fields :: Equal(k, l)
  }

  predicate Truthy(v: Value) {
    match v
    case Null => false
    case Bool(b) => b
    case Int(n) => n != 0
    case Float(f) => f.Finite? ==> f.value != 0.0
    case Str(s) => s != ""
    case List(items) => items != []
    case Tuple(items) => items != []
    case Dict(order, _) => order != []
    case Range(elements) => elements != []
    case Function(_) => true
  }

  /** What a `for` statement iterates over; None is Python's TypeError. */
  function Iterate(v: Value): Option<seq<Value>> {
    match v
    case Str(s) => Some(seq(|s|, i requires 0 <= i < |s| => Str([s[i]])))
    case List(items) => Some(items)
    case Tuple(items) => Some(items)
    case Dict(order, _) => Some(order)
    case Range(elements) => Some(seq(|elements|, i requires 0 <= i < |elements| => Int(elements[i])))
    case _ => None
  }

  /**
   `Apply` is every construct that evaluates all its operands from left to right; the operands of a dictionary
   are its keys and values in turn.
   */
  datatype Operator = MakeList | MakeTuple | MakeDict | Primitive(symbol: string)

  /** The rest of a comparison: `symbol` and what it compares with. */
  datatype Link = Link(symbol: string, right: Expr)

  datatype Expr =
    | Const(value: Value)
    | Name(id: string)
    | Apply(op: Operator, operands: seq<Expr>)
    | Call(function_: string, arguments: seq<Expr>)
    | And(left: Expr, right: Expr)
    | Or(left: Expr, right: Expr)
    | IfExp(test: Expr, then_: Expr, else_: Expr)
    | Compare(left: Expr, links: seq<Link>)

  datatype Stmt =
    | Assign(target: string, value: Expr)
    | Evaluate(value: Expr)
    | If(test: Expr, then_: seq<Stmt>, else_: seq<Stmt>)
    | For(target: string, items: Expr, body: seq<Stmt>)

  type Program = seq<Stmt>
  type Env = map<string, Value>

  const FUNCTIONS := {"call", "len", "range", "str", "int", "float", "sum", "min", "max", "sorted"}

  const NAMESPACE: Env := map f | f in FUNCTIONS :: Function(f)

  predicate Public(id: string) {
    id == "" || id[0] != '_'
  }

  predicate AcceptedExpr(e: Expr) {
    match e
    case Const(_) => true
    case Name(id) => Public(id)
    case Apply(_, es) => forall i | 0 <= i < |es| :: AcceptedExpr(es[i])
    case Call(f, es) => f in FUNCTIONS && forall i | 0 <= i < |es| :: AcceptedExpr(es[i])
    case And(l, r) => AcceptedExpr(l) && AcceptedExpr(r)
    case Or(l, r) => AcceptedExpr(l) && AcceptedExpr(r)
    case IfExp(c, a, b) => AcceptedExpr(c) && AcceptedExpr(a) && AcceptedExpr(b)
    case Compare(l, links) => AcceptedExpr(l) && forall i | 0 <= i < |links| :: AcceptedExpr(links[i].right)
  }

  predicate AcceptedStmt(s: Stmt) {
    match s
    case Assign(x, e) => Public(x) && AcceptedExpr(e)
    case Evaluate(e) => AcceptedExpr(e)
    case If(c, a, b) =>
      && AcceptedExpr(c)
      && (forall i | 0 <= i < |a| :: AcceptedStmt(a[i]))
      && (forall i | 0 <= i < |b| :: AcceptedStmt(b[i]))
    case For(x, e, body) => Public(x) && AcceptedExpr(e) && forall i | 0 <= i < |body| :: AcceptedStmt(body[i])
  }

  /** The static walk over the syntax tree. */
  predicate Accepted(p: Program) {
    forall i | 0 <= i < |p| :: AcceptedStmt(p[i])
  }

  datatype Failure =
    | Rejected | UndefinedName | BadOperand | BadCall | LoopBound | Unserializable | ReplayChanged

  /** One entry of the persisted history. */
  datatype Entry = Entry(name: string, arguments: Value, value: Value)

  /** What happens when the host is asked to run a tool. */
  datatype Reply = Answer(value: Value) | Refusal(value: Value) | Raised | Unavailable

  /** The tools may answer as they like, depending on everything called so far. */
  type World = (seq<Entry>, string, Value) -> Reply

  /**
   The reply that the loop works with.  An answer that json.dumps refuses raises at the checkpoint that should store
   it, after the tool has been called.
   */
  function Ask(w: World, trace: seq<Entry>, name: string, arguments: Value): (r: Reply)
    ensures r.Answer? ==> Encodable(r.value)
  {
    match w(trace, name, arguments)
    case Answer(value) => if Encodable(value) then Answer(value) else Raised
    case reply => reply
  }

  /**
   Every pure operation of the language, as an arbitrary deterministic function: nothing below
   depends on what the operators compute.  None is a Python exception.
   */
  datatype Ops = Ops(primitive: (string, seq<Value>) -> Option<Value>, builtin: (string, seq<Value>) -> Option<Value>)

  datatype Mode = Replay(history: seq<Entry>) | Direct(world: World)

  datatype Machine = Machine(ops: Ops, mode: Mode)

  /** The calls made so far, and beside each the arguments as the program passed them. */
  datatype Calls = Calls(trace: seq<Entry>, sent: seq<Value>)

  datatype Stop =
    | Pending(name: string, arguments: Value)
    | Failed(failure: Failure)
    | Stopped(reply: Reply, name: string, arguments: Value)

  datatype Res<T> = Ok(v: T, c: Calls) | Halt(stop: Stop, c: Calls) {
    predicate IsFailure() {
      Halt?
    }

    function PropagateFailure<U>(): Res<U>
      requires Halt?
    {
      Halt(stop, c)
    }

    function Extract(): (T, Calls)
      requires Ok?
    {
      (v, c)
    }
  }

  /** Entry `k` of the trace is what the world answered after the entries before it. */
  predicate Answered(w: World, trace: seq<Entry>, k: nat)
    requires k < |trace|
  {
    var reply := Ask(w, trace[..k], trace[k].name, trace[k].arguments);
    reply.Answer? && trace[k].value == Wire(reply.value)
  }

  /** Evaluation only appends calls, and in direct mode only ones the world answered. */
  ghost predicate Grows(mode: Mode, c: Calls, c': Calls) {
    && c.trace <= c'.trace
    && c.sent <= c'.sent
    && |c'.trace| - |c.trace| == |c'.sent| - |c.sent|
    && (mode.Direct? ==> forall k | |c.trace| <= k < |c'.trace| :: Answered(mode.world, c'.trace, k))
  }

  /** In direct mode only the host or a program error stops the program, and the host has its reasons. */
  ghost predicate Honest<T>(mode: Mode, r: Res<T>) {
    mode.Direct? && r.Halt? ==>
      match r.stop
      case Pending(_, _) => false
      case Failed(failure) => failure != ReplayChanged
      case Stopped(reply, name, arguments) => !reply.Answer? && reply == Ask(mode.world, r.c.trace, name, arguments)
  }

  lemma GrowsTransitive(mode: Mode, c0: Calls, c1: Calls, c2: Calls)
    requires Grows(mode, c0, c1) && Grows(mode, c1, c2)
    ensures Grows(mode, c0, c2)
  {
    if mode.Direct? {
      forall k | |c0.trace| <= k < |c2.trace| ensures Answered(mode.world, c2.trace, k) {
        if k < |c1.trace| {
          assert Answered(mode.world, c1.trace, k);
          assert c2.trace[..k] == c1.trace[..k];
        }
      }
    }
  }

  /** The bridged `call(name, arguments)`. */
  function CallTool(mode: Mode, name: string, args: Value, c: Calls): (r: Res<Value>)
    ensures Grows(mode, c, r.c) && Honest(mode, r)
  {
    match mode
    case Replay(history) =>
      if |c.trace| >= |history| then
        if Encodable(args) then Halt(Pending(name, Wire(args)), c) else Halt(Failed(Unserializable), c)
      else
        var previous := history[|c.trace|];
        var c' := Calls(c.trace + [previous], c.sent + [args]);
        if previous.name != name || !Equal(previous.arguments, args) then
          Halt(Failed(ReplayChanged), c')
        else
          Ok(previous.value, c')
    case Direct(world) =>
      if !Encodable(args) then
        Halt(Failed(Unserializable), c)
      else
        match Ask(world, c.trace, name, Wire(args))
        case Answer(v) =>
          var c' := Calls(c.trace + [Entry(name, Wire(args), Wire(v))], c.sent + [args]);
          assert c'.trace[..|c.trace|] == c.trace;
          Ok(Wire(v), c')
        case reply => Halt(Stopped(reply, name, Wire(args)), c)
  }

  /** Booleans are integers. */
  function AsInt(v: Value): Option<int> {
    match v
    case Int(n) => Some(n)
    case Bool(b) => Some(if b then 1 else 0)
    case _ => None
  }

  /** How many steps lead from `lo` to `hi`, the latter excluded. */
  function StepsBetween(lo: int, hi: int, step: int): (n: nat)
    requires step != 0
  {
    if step > 0 && lo < hi then (hi - lo - 1) / step + 1
    else if step < 0 && hi < lo then (lo - hi - 1) / -step + 1
    else 0
  }

  /** Start, end and step of a range; None is Python's TypeError, or ValueError for a step of zero. */
  function RangeArguments(args: seq<Value>): (r: Option<(int, int, int)>)
    ensures r.Some? ==> r.value.2 != 0
  {
    if !(1 <= |args| <= 3) || exists i | 0 <= i < |args| :: AsInt(args[i]).None? then
      None
    else
      var lo := if |args| == 1 then 0 else AsInt(args[0]).value;
      var hi := AsInt(args[if |args| == 1 then 0 else 1]).value;
      var step := if |args| == 3 then AsInt(args[2]).value else 1;
      if step == 0 then None else Some((lo, hi, step))
  }

  /** `bounded_range`: the range of these arguments, unless it has more than 1000 elements. */
  function BoundedRange(args: seq<Value>): (r: Option<seq<int>>)
    ensures r.Some? ==> |r.value| <= 1000
  {
    match RangeArguments(args)
    case None => None
    case Some((lo, hi, step)) =>
      var n := StepsBetween(lo, hi, step);
      if n > 1000 then None else Some(seq(n, i => lo + i * step))
  }

  predicate Before(x: int, hi: int, step: int) {
    if step > 0 then x < hi else hi < x
  }

  predicate IsNth(x: int, lo: int, step: int, i: nat) {
    x == lo + i * step
  }

  /** The elements of an accepted range are exactly the multiples of the step that lie before the end. */
  lemma RangeElements(args: seq<Value>, x: int)
    requires BoundedRange(args).Some?
    ensures var (lo, hi, step) := RangeArguments(args).value;
            x in BoundedRange(args).value <==> Before(x, hi, step) && exists i: nat :: IsNth(x, lo, step, i)
  {
    var (lo, hi, step) := RangeArguments(args).value;
    var elements := BoundedRange(args).value;
    if x in elements {
      var i :| 0 <= i < |elements| && elements[i] == x;
      StepsReach(lo, hi, step, i);
      assert IsNth(x, lo, step, i);
    }
    if i: nat :| IsNth(x, lo, step, i) && Before(x, hi, step) {
      StepsReach(lo, hi, step, i);
      assert elements[i] == x;
    }
  }

  lemma StepsReach(lo: int, hi: int, step: int, i: nat)
    requires step != 0
    ensures i < StepsBetween(lo, hi, step) <==> Before(lo + i * step, hi, step)
  {
    var width := if step > 0 then hi - lo - 1 else lo - hi - 1;
    var size := if step > 0 then step else -step;
    assert step < 0 ==> i * step == -(i * size);
    if width >= 0 {
      DivisionCounts(width, size, i);
    } else {
      assert i * size >= 0;
    }
  }

  lemma DivisionCounts(width: nat, size: nat, i: nat)
    requires size > 0
    ensures i < width / size + 1 <==> i * size <= width
  {
    var q, r := width / size, width % size;
    assert width == q * size + r;
    if i <= q {
      assert i * size <= q * size;
    } else {
      assert (q + 1) * size <= i * size;
    }
  }

  /** Calling whatever the name is bound to. */
  function Invoke(m: Machine, f: Value, args: seq<Value>, c: Calls): (r: Res<Value>)
    ensures Grows(m.mode, c, r.c) && Honest(m.mode, r)
  {
    if f == Function("call") then
      if |args| == 2 && args[0].Str? && args[1].Dict? then
        CallTool(m.mode, args[0].s, args[1], c)
      else
        Halt(Failed(BadCall), c)
    else if f == Function("range") then
      match BoundedRange(args)
      case Some(elements) => Ok(Range(elements), c)
      case None => Halt(Failed(LoopBound), c)
    else if f.Function? then
      match m.ops.builtin(f.name, args)
      case Some(v) => Ok(v, c)
      case None => Halt(Failed(BadOperand), c)
    else
      Halt(Failed(BadOperand), c)
  }

  function Operate(ops: Ops, op: Operator, args: seq<Value>): Option<Value> {
    match op
    case MakeList => Some(List(args))
    case MakeTuple => Some(Tuple(args))
    case MakeDict => BuildDict(args)
    case Primitive(symbol) => ops.primitive(symbol, args)
  }

  predicate Hashable(v: Value) {
    match v
    case List(_) => false
    case Dict(_, _) => false
    case Tuple(items) => forall i | 0 <= i < |items| :: Hashable(items[i])
    case _ => true
  }

  /** The key of the dictionary that equals `key`, if there is one. */
  function FindKey(order: seq<Value>, key: Value): Option<Value> {
    if order == [] then None
    else if Equal(order[0], key) then Some(order[0])
    else FindKey(order[1..], key)
  }

  /** A dictionary display; an equal key keeps its place and form and takes the new value. */
  function BuildDict(args: seq<Value>): (d: Option<Value>)
    ensures d.Some? ==> d.value.Dict?
  {
    if args == [] then
      Some(Dict([], map[]))
    else if |args| == 1 then
      None
    else
      var before, key, value := BuildDict(args[..|args| - 2]), args[|args| - 2], args[|args| - 1];
      if before.None? || !Hashable(key) then
        None
      else
        match FindKey(before.value.order, key)
        case Some(k) => Some(Dict(before.value.order, before.value.fields[k := value]))
        case None => Some(Dict(before.value.order + [key], before.value.fields[key := value]))
  }

  function Eval(m: Machine, e: Expr, env: Env, c: Calls): (r: Res<Value>)
    ensures Grows(m.mode, c, r.c) && Honest(m.mode, r)
    decreases e, 1
  {
    match e
    case Const(v) => Ok(v, c)
    case Name(id) => if id in env then Ok(env[id], c) else Halt(Failed(UndefinedName), c)
    case Apply(op, es) =>
      var (vs, c1) :- EvalAll(m, es, env, c);
      (match Operate(m.ops, op, vs)
       case Some(v) => Ok(v, c1)
       case None => Halt(Failed(BadOperand), c1))
    case Call(f, es) =>
      if f !in env then
        Halt(Failed(UndefinedName), c)
      else
        var (vs, c1) :- EvalAll(m, es, env, c);
        GrowsTransitive(m.mode, c, c1, Invoke(m, env[f], vs, c1).c);
        Invoke(m, env[f], vs, c1)
    case And(l, r) =>
      var (v, c1) :- Eval(m, l, env, c);
      GrowsTransitive(m.mode, c, c1, Eval(m, r, env, c1).c);
      if Truthy(v) then Eval(m, r, env, c1) else Ok(v, c1)
    case Or(l, r) =>
      var (v, c1) :- Eval(m, l, env, c);
      GrowsTransitive(m.mode, c, c1, Eval(m, r, env, c1).c);
      if Truthy(v) then Ok(v, c1) else Eval(m, r, env, c1)
    case IfExp(t, a, b) =>
      var (v, c1) :- Eval(m, t, env, c);
      GrowsTransitive(m.mode, c, c1, Eval(m, if Truthy(v) then a else b, env, c1).c);
      Eval(m, if Truthy(v) then a else b, env, c1)
    case Compare(l, links) =>
      var (v, c1) :- Eval(m, l, env, c);
      GrowsTransitive(m.mode, c, c1, EvalLinks(m, v, links, env, c1).c);
      EvalLinks(m, v, links, env, c1)
  }

  /** The comparisons of a chain, each operand evaluated once, up to the first that does not hold. */
  function EvalLinks(m: Machine, v: Value, links: seq<Link>, env: Env, c: Calls): (r: Res<Value>)
    ensures Grows(m.mode, c, r.c) && Honest(m.mode, r)
    decreases links, 0
  {
    if links == [] then
      Ok(v, c)
    else
      var (w, c1) :- Eval(m, links[0].right, env, c);
      GrowsTransitive(m.mode, c, c1, EvalLinks(m, w, links[1..], env, c1).c);
      match m.ops.primitive(links[0].symbol, [v, w])
      case None => Halt(Failed(BadOperand), c1)
      case Some(t) => if |links| == 1 || !Truthy(t) then Ok(t, c1) else EvalLinks(m, w, links[1..], env, c1)
  }

  function EvalAll(m: Machine, es: seq<Expr>, env: Env, c: Calls): (r: Res<seq<Value>>)
    ensures Grows(m.mode, c, r.c) && Honest(m.mode, r)
    decreases es, 0
  {
    if es == [] then
      Ok([], c)
    else
      var (v, c1) :- Eval(m, es[0], env, c);
      GrowsTransitive(m.mode, c, c1, EvalAll(m, es[1..], env, c1).c);
      var (vs, c2) :- EvalAll(m, es[1..], env, c1);
      Ok([v] + vs, c2)
  }

  function Exec(m: Machine, s: Stmt, env: Env, c: Calls): (r: Res<Env>)
    ensures Grows(m.mode, c, r.c) && Honest(m.mode, r)
    decreases s, 1
  {
    match s
    case Assign(x, e) =>
      var (v, c1) :- Eval(m, e, env, c);
      Ok(env[x := v], c1)
    case Evaluate(e) =>
      var (_, c1) :- Eval(m, e, env, c);
      Ok(env, c1)
    case If(t, a, b) =>
      var (v, c1) :- Eval(m, t, env, c);
      GrowsTransitive(m.mode, c, c1, ExecBlock(m, if Truthy(v) then a else b, env, c1).c);
      ExecBlock(m, if Truthy(v) then a else b, env, c1)
    case For(x, e, body) =>
      var (v, c1) :- Eval(m, e, env, c);
      (match Iterate(v)
       case Some(items) =>
         GrowsTransitive(m.mode, c, c1, ExecFor(m, x, items, body, env, c1).c);
         ExecFor(m, x, items, body, env, c1)
       case None => Halt(Failed(BadOperand), c1))
  }

  function ExecBlock(m: Machine, ss: seq<Stmt>, env: Env, c: Calls): (r: Res<Env>)
    ensures Grows(m.mode, c, r.c) && Honest(m.mode, r)
    decreases ss, 0
  {
    if ss == [] then
      Ok(env, c)
    else
      var (env1, c1) :- Exec(m, ss[0], env, c);
      GrowsTransitive(m.mode, c, c1, ExecBlock(m, ss[1..], env1, c1).c);
      ExecBlock(m, ss[1..], env1, c1)
  }

  function ExecFor(m: Machine, x: string, items: seq<Value>, body: seq<Stmt>, env: Env, c: Calls): (r: Res<Env>)
    ensures Grows(m.mode, c, r.c) && Honest(m.mode, r)
    decreases body, 1, |items|
  {
    if items == [] then
      Ok(env, c)
    else
      var (env1, c1) :- ExecBlock(m, body, env[x := items[0]], c);
      GrowsTransitive(m.mode, c, c1, ExecFor(m, x, items[1..], body, env1, c1).c);
      ExecFor(m, x, items[1..], body, env1, c1)
  }
}
