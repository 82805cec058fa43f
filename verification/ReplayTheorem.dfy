/**
 Replaying a program against a recorded history means the same as running it directly.

 What does not survive is whatever JSON changes inside the arguments of a call: the history stores a tuple as
 a list and a key as a string, and neither equals the original on the next evaluation; and a NaN that the
 program made itself equals nothing at all.
 */
module ReplayTheorem {
  import opened Prelude
  import opened CodeLanguage

  /** The arguments still compare equal after the round trip through the recorded history. */
  predicate Stable(args: Value) {
    Equal(Wire(args), args)
  }

  /** No tuple, no dictionary key that is not a string, no NaN but the one that json.loads itself gives. */
  predicate Plain(v: Value) {
    match v
    case List(items) => forall i | 0 <= i < |items| :: Plain(items[i])
    case Tuple(_) => false
    case Dict(_, fields) => forall k | k in fields :: k.Str? && Plain(fields[k])
    case Float(Nan(decoded)) => decoded
    case _ => true
  }

  /** When every key is a string, no key changes in JSON, and none hides another. */
  lemma StringKeysStay(order: seq<Value>, fields: map<Value, Value>)
    requires forall k | k in fields :: k.Str?
    ensures TextKeys(order, fields) == fields.Keys
    ensures forall k | k in fields :: Source(order, fields, k) == k
  {
  }

  lemma EqualToString(k: Value, l: Value)
    requires k.Str? || l.Str?
    ensures Equal(k, l) <==> k == l
  {
  }

  /** Under a string key, the entry of an equal dictionary is its entry under the same key. */
  lemma EntryUnderString(b: Value, a: Value, k: Value)
    requires a.Dict? && b.Dict? && k in a.fields && k.Str?
    ensures HasEntry(b, a, k) <==> k in b.fields && Equal(a.fields[k], b.fields[k])
  {
    EqualToString(k, k);
    if HasEntry(b, a, k) {
      var l :| l in b.fields && Equal(k, l) && Equal(a.fields[k], b.fields[l]);
      EqualToString(k, l);
    }
  }

  lemma KeyIsString(a: Value, l: Value)
    requires a.Dict? && forall k | k in a.fields :: k.Str?
    ensures HasKey(a, l) <==> l in a.fields
  {
    if l in a.fields {
      EqualToString(l, l);
    }
    if HasKey(a, l) {
      var k :| k in a.fields && Equal(k, l);
      EqualToString(k, l);
    }
  }

  lemma EqualDicts(a: Value, b: Value)
    requires a.Dict? && b.Dict?
    ensures Equal(a, b) <==> (forall k | k in a.fields :: HasEntry(b, a, k)) && forall l | l in b.fields :: HasKey(a, l)
  {
  }

  lemma EntriesDiffer(a: Value, b: Value, k: Value)
    requires a.Dict? && b.Dict? && k in a.fields && k.Str?
    requires k in b.fields ==> !Equal(a.fields[k], b.fields[k])
    ensures !Equal(a, b)
  {
    EntryUnderString(b, a, k);
    EqualDicts(a, b);
  }

  ghost predicate SameEntries(a: Value, b: Value)
    requires a.Dict? && b.Dict? && a.fields.Keys == b.fields.Keys
  {
    forall k | k in a.fields :: Equal(a.fields[k], b.fields[k])
  }

  lemma DictsCompare(a: Value, b: Value)
    requires a.Dict? && b.Dict? && a.fields.Keys == b.fields.Keys && forall k | k in a.fields :: k.Str?
    ensures Equal(a, b) <==> SameEntries(a, b)
  {
    EqualDicts(a, b);
    forall l | l in b.fields ensures HasKey(a, l) {
      KeyIsString(a, l);
    }
    if Equal(a, b) {
      forall k | k in a.fields ensures Equal(a.fields[k], b.fields[k]) {
        EntryUnderString(b, a, k);
      }
    } else {
      var k :| k in a.fields && !HasEntry(b, a, k);
      EntryUnderString(b, a, k);
    }
  }

  lemma WireOfStringKeys(order: seq<Value>, fields: map<Value, Value>, k: Value)
    requires k in fields && forall l | l in fields :: l.Str?
    ensures Wire(Dict(order, fields)).fields.Keys == fields.Keys
    ensures Wire(Dict(order, fields)).fields[k] == Wire(fields[k])
  {
    StringKeysStay(order, fields);
  }

  lemma StableDict(order: seq<Value>, fields: map<Value, Value>)
    requires forall k | k in fields :: k.Str?
    ensures Stable(Dict(order, fields)) <==> forall k | k in fields :: Stable(fields[k])
  {
    var wired := Wire(Dict(order, fields));
    StringKeysStay(order, fields);
    assert wired.fields.Keys == fields.Keys;
    DictsCompare(wired, Dict(order, fields));
    forall k | k in fields ensures Equal(wired.fields[k], fields[k]) <==> Stable(fields[k]) {
      WireOfStringKeys(order, fields, k);
    }
  }

  lemma OddKeysAreUnstable(order: seq<Value>, fields: map<Value, Value>, odd: Value)
    requires odd in fields && !odd.Str?
    ensures !Stable(Dict(order, fields))
  {
    KeyIsString(Wire(Dict(order, fields)), odd);
  }

  lemma {:induction false} StableIffPlain(v: Value)
    ensures Stable(v) <==> Plain(v)
  {
    match v
    case List(items) =>
      forall i | 0 <= i < |items| ensures Equal(Wire(items[i]), items[i]) <==> Plain(items[i]) {
        StableIffPlain(items[i]);
      }
    case Dict(order, fields) =>
      if odd :| odd in fields && !odd.Str? {
        OddKeysAreUnstable(order, fields, odd);
      } else {
        StableDict(order, fields);
        forall k | k in fields ensures Stable(fields[k]) <==> Plain(fields[k]) {
          StableIffPlain(fields[k]);
        }
      }
    case _ =>
  }

  /** Storing and loading a history again changes nothing more. */
  lemma {:induction false} WireIsIdempotent(v: Value)
    ensures Wire(Wire(v)) == Wire(v)
  {
    match v
    case List(items) =>
      forall i | 0 <= i < |items| ensures Wire(Wire(items[i])) == Wire(items[i]) {
        WireIsIdempotent(items[i]);
      }
    case Tuple(items) =>
      forall i | 0 <= i < |items| ensures Wire(Wire(items[i])) == Wire(items[i]) {
        WireIsIdempotent(items[i]);
      }
    case Dict(order, fields) =>
      var wired := Wire(v);
      TextOrderIsDistinct(order, fields);
      forall k | k in wired.fields ensures Wire(wired.fields[k]) == wired.fields[k] {
        WireIsIdempotent(fields[Source(order, fields, k)]);
      }
      WiredDictStays(wired.order, wired.fields);
    case _ =>
  }

  predicate Distinct(keys: seq<Value>) {
    forall i, j | 0 <= i < j < |keys| :: keys[i] != keys[j]
  }

  lemma WiredDictStays(order: seq<Value>, fields: map<Value, Value>)
    requires forall k | k in fields :: k.Str? && Wire(fields[k]) == fields[k]
    requires forall k | k in order :: k in fields
    requires Distinct(order)
    ensures Wire(Dict(order, fields)) == Dict(order, fields)
  {
    StringKeysStay(order, fields);
    TextOrderStays(order, fields);
    assert Wire(Dict(order, fields)).fields == fields;
  }

  lemma {:induction false} TextOrderIsDistinct(order: seq<Value>, fields: map<Value, Value>)
    ensures forall k | k in TextOrder(order, fields) :: k.Str? && k in TextKeys(order, fields)
    ensures Distinct(TextOrder(order, fields))
  {
    if order != [] {
      var init := order[..|order| - 1];
      TextOrderIsDistinct(init, fields);
      forall k | k in init ensures k in order {
      }
      assert TextKeys(init, fields) <= TextKeys(order, fields);
      var name, before := Str(KeyText(order[|order| - 1])), TextOrder(init, fields);
      assert name !in before ==> Distinct(before + [name]);
    }
  }

  lemma {:induction false} TextOrderStays(order: seq<Value>, fields: map<Value, Value>)
    requires forall k | k in order :: k.Str? && k in fields
    requires Distinct(order)
    ensures TextOrder(order, fields) == order
  {
    if order != [] {
      TextOrderStays(order[..|order| - 1], fields);
    }
  }

  /** How many of the arguments come before the first unstable ones. */
  function StableCount(sent: seq<Value>): (n: nat)
    ensures n <= |sent|
    ensures forall i | 0 <= i < n :: Stable(sent[i])
    ensures n < |sent| ==> !Stable(sent[n])
  {
    if sent == [] || !Stable(sent[0]) then 0 else 1 + StableCount(sent[1..])
  }

  lemma StableCountPrefix(a: seq<Value>, b: seq<Value>)
    requires a <= b
    ensures StableCount(a) == Min(|a|, StableCount(b))
  {
  }

  ghost predicate Aligned(c: Calls) {
    |c.trace| == |c.sent|
  }

  /** A replay of `history` reaches the point where the direct run has made the calls `c`. */
  ghost predicate Reaches(history: seq<Entry>, c: Calls) {
    c.trace <= history && StableCount(c.sent) == |c.sent|
  }

  /** Why a replay of `history` stops before the calls `c` of the direct run are all made. */
  ghost predicate Diverted(history: seq<Entry>, c: Calls, stop: Stop)
    requires Aligned(c)
  {
    var n := StableCount(c.sent);
    if n < |history| then
      stop == Failed(ReplayChanged)
    else
      |history| < |c.trace| && stop == Pending(c.trace[|history|].name, c.trace[|history|].arguments)
  }

  ghost predicate Comparable(history: seq<Entry>, trace: seq<Entry>) {
    history <= trace || trace <= history
  }

  /** Where the host stops the direct run, the replay suspends with the same request. */
  function Suspension(stop: Stop): Stop {
    match stop
    case Stopped(_, name, arguments) => Pending(name, arguments)
    case _ => stop
  }

  /** How the replay `r` of `history` relates to the direct evaluation `d` of the same thing. */
  ghost predicate Mirrors<T(!new)>(history: seq<Entry>, d: Res<T>, r: Res<T>)
    requires Aligned(d.c)
  {
    if !Reaches(history, d.c) then
      r.Halt? && Diverted(history, d.c, r.stop)
    else if d.Ok? then
      r == d
    else
      d.c.trace == history ==> r == Halt(Suspension(d.stop), d.c)
  }

  /** A diversion inside the first part is a diversion of the whole. */
  lemma DivertedExtends(history: seq<Entry>, c: Calls, c': Calls, stop: Stop)
    requires Aligned(c) && Aligned(c') && c.trace <= c'.trace && c.sent <= c'.sent
    requires Comparable(history, c'.trace)
    requires !Reaches(history, c) && Diverted(history, c, stop)
    ensures !Reaches(history, c') && Diverted(history, c', stop)
  {
    StableCountPrefix(c.sent, c'.sent);
  }

  /** The situation in which the two evaluations of one piece of program start. */
  ghost predicate Starts(history: seq<Entry>, c: Calls, d: Calls) {
    Aligned(c) && Reaches(history, c) && Comparable(history, d.trace)
  }

  lemma CallMirrors(w: World, history: seq<Entry>, name: string, args: Value, c: Calls)
    requires Starts(history, c, CallTool(Direct(w), name, args, c).c)
    ensures Aligned(CallTool(Direct(w), name, args, c).c)
    ensures Mirrors(history, CallTool(Direct(w), name, args, c), CallTool(Replay(history), name, args, c))
  {
    var d := CallTool(Direct(w), name, args, c);
    StableCountPrefix(c.sent, d.c.sent);
    if d.Ok? && |c.trace| < |history| {
      assert d.c.sent[|c.sent|] == args;
      assert history[|c.trace|] == d.c.trace[|c.trace|];
      assert c.trace + [history[|c.trace|]] <= history;
    }
  }

  lemma InvokeMirrors(ops: Ops, w: World, history: seq<Entry>, f: Value, args: seq<Value>, c: Calls)
    requires Starts(history, c, Invoke(Machine(ops, Direct(w)), f, args, c).c)
    ensures Mirrors(history, Invoke(Machine(ops, Direct(w)), f, args, c),
                    Invoke(Machine(ops, Replay(history)), f, args, c))
  {
    if f == Function("call") && |args| == 2 && args[0].Str? && args[1].Dict? {
      CallMirrors(w, history, args[0].s, args[1], c);
    }
  }

  /** A comparable whole has comparable parts. */
  lemma StartsPart(history: seq<Entry>, c: Calls, part: Calls, whole: Calls)
    requires Starts(history, c, whole) && part.trace <= whole.trace
    ensures Starts(history, c, part)
  {
    if |history| <= |part.trace| {
      assert history == whole.trace[..|history|] == part.trace[..|history|];
    }
  }

  /**
   Two evaluations in sequence: `d1` and `r1` are the first parts of `d` and `r`.  Once the first
   parts mirror each other, only a first part that the replay gets through leaves more to prove.
   */
  lemma Compose<T(!new), U(!new)>(history: seq<Entry>, d1: Res<T>, r1: Res<T>, d: Res<U>, r: Res<U>)
    requires Aligned(d1.c) && Aligned(d.c) && d1.c.trace <= d.c.trace && d1.c.sent <= d.c.sent
    requires Comparable(history, d.c.trace)
    requires Mirrors(history, d1, r1)
    requires d1.Halt? ==> d == Halt(d1.stop, d1.c)
    requires r1.Halt? ==> r == Halt(r1.stop, r1.c)
    requires d1.Ok? && Reaches(history, d1.c) ==> Mirrors(history, d, r)
    ensures Mirrors(history, d, r)
  {
    if d1.Ok? && !Reaches(history, d1.c) {
      DivertedExtends(history, d1.c, d.c, r1.stop);
    }
  }

  lemma {:induction false} EvalMirrors(ops: Ops, w: World, history: seq<Entry>, e: Expr, env: Env, c: Calls)
    requires Starts(history, c, Eval(Machine(ops, Direct(w)), e, env, c).c)
    ensures Mirrors(history, Eval(Machine(ops, Direct(w)), e, env, c), Eval(Machine(ops, Replay(history)), e, env, c))
    decreases e, 2
  {
    match e
    case Const(_) =>
    case Name(_) =>
    case Apply(_, _) => OperandsMirror(ops, w, history, e, env, c);
    case Call(_, _) => OperandsMirror(ops, w, history, e, env, c);
    case Compare(_, _) => CompareMirrors(ops, w, history, e, env, c);
    case _ => BranchMirrors(ops, w, history, e, env, c);
  }

  lemma {:induction false} OperandsMirror(ops: Ops, w: World, history: seq<Entry>, e: Expr, env: Env, c: Calls)
    requires e.Apply? || e.Call?
    requires Starts(history, c, Eval(Machine(ops, Direct(w)), e, env, c).c)
    ensures Mirrors(history, Eval(Machine(ops, Direct(w)), e, env, c), Eval(Machine(ops, Replay(history)), e, env, c))
    decreases e, 1
  {
    var D, R := Machine(ops, Direct(w)), Machine(ops, Replay(history));
    var es := if e.Apply? then e.operands else e.arguments;
    if e.Apply? || e.function_ in env {
      var d, d1, r1 := Eval(D, e, env, c), EvalAll(D, es, env, c), EvalAll(R, es, env, c);
      StartsPart(history, c, d1.c, d.c);
      EvalAllMirrors(ops, w, history, es, env, c);
      if e.Call? && d1.Ok? && Reaches(history, d1.c) {
        InvokeMirrors(ops, w, history, env[e.function_], d1.v, d1.c);
      }
      Compose(history, d1, r1, d, Eval(R, e, env, c));
    }
  }

  lemma {:induction false} BranchMirrors(ops: Ops, w: World, history: seq<Entry>, e: Expr, env: Env, c: Calls)
    requires e.And? || e.Or? || e.IfExp?
    requires Starts(history, c, Eval(Machine(ops, Direct(w)), e, env, c).c)
    ensures Mirrors(history, Eval(Machine(ops, Direct(w)), e, env, c), Eval(Machine(ops, Replay(history)), e, env, c))
    decreases e, 1
  {
    var D, R := Machine(ops, Direct(w)), Machine(ops, Replay(history));
    var t := if e.IfExp? then e.test else e.left;
    var d, d1, r1 := Eval(D, e, env, c), Eval(D, t, env, c), Eval(R, t, env, c);
    StartsPart(history, c, d1.c, d.c);
    EvalMirrors(ops, w, history, t, env, c);
    if d1.Ok? && Reaches(history, d1.c) && (e.IfExp? || Truthy(d1.v) == e.And?) {
      var b := if e.IfExp? then (if Truthy(d1.v) then e.then_ else e.else_) else e.right;
      EvalMirrors(ops, w, history, b, env, d1.c);
    }
    Compose(history, d1, r1, d, Eval(R, e, env, c));
  }

  lemma {:induction false} CompareMirrors(ops: Ops, w: World, history: seq<Entry>, e: Expr, env: Env, c: Calls)
    requires e.Compare?
    requires Starts(history, c, Eval(Machine(ops, Direct(w)), e, env, c).c)
    ensures Mirrors(history, Eval(Machine(ops, Direct(w)), e, env, c), Eval(Machine(ops, Replay(history)), e, env, c))
    decreases e, 1
  {
    var D, R := Machine(ops, Direct(w)), Machine(ops, Replay(history));
    var d, d1, r1 := Eval(D, e, env, c), Eval(D, e.left, env, c), Eval(R, e.left, env, c);
    StartsPart(history, c, d1.c, d.c);
    EvalMirrors(ops, w, history, e.left, env, c);
    if d1.Ok? && Reaches(history, d1.c) {
      LinksMirror(ops, w, history, d1.v, e.links, env, d1.c);
    }
    Compose(history, d1, r1, d, Eval(R, e, env, c));
  }

  lemma {:induction false} LinksMirror(
      ops: Ops, w: World, history: seq<Entry>, v: Value, links: seq<Link>, env: Env, c: Calls)
    requires Starts(history, c, EvalLinks(Machine(ops, Direct(w)), v, links, env, c).c)
    ensures Mirrors(history, EvalLinks(Machine(ops, Direct(w)), v, links, env, c),
                    EvalLinks(Machine(ops, Replay(history)), v, links, env, c))
    decreases links, 0
  {
    if links != [] {
      var D, R := Machine(ops, Direct(w)), Machine(ops, Replay(history));
      var d, r := EvalLinks(D, v, links, env, c), EvalLinks(R, v, links, env, c);
      var d1, r1 := Eval(D, links[0].right, env, c), Eval(R, links[0].right, env, c);
      StartsPart(history, c, d1.c, d.c);
      EvalMirrors(ops, w, history, links[0].right, env, c);
      if d1.Ok? && Reaches(history, d1.c) {
        var t := ops.primitive(links[0].symbol, [v, d1.v]);
        if t.Some? && |links| > 1 && Truthy(t.value) {
          LinksMirror(ops, w, history, d1.v, links[1..], env, d1.c);
        }
      }
      Compose(history, d1, r1, d, r);
    }
  }

  lemma {:induction false} EvalAllMirrors(ops: Ops, w: World, history: seq<Entry>, es: seq<Expr>, env: Env, c: Calls)
    requires Starts(history, c, EvalAll(Machine(ops, Direct(w)), es, env, c).c)
    ensures Mirrors(history, EvalAll(Machine(ops, Direct(w)), es, env, c),
                    EvalAll(Machine(ops, Replay(history)), es, env, c))
    decreases es, 0
  {
    if es != [] {
      var D, R := Machine(ops, Direct(w)), Machine(ops, Replay(history));
      var d, r := EvalAll(D, es, env, c), EvalAll(R, es, env, c);
      var d1, r1 := Eval(D, es[0], env, c), Eval(R, es[0], env, c);
      StartsPart(history, c, d1.c, d.c);
      EvalMirrors(ops, w, history, es[0], env, c);
      if d1.Ok? && Reaches(history, d1.c) {
        EvalAllMirrors(ops, w, history, es[1..], env, d1.c);
        Compose(history, EvalAll(D, es[1..], env, d1.c), EvalAll(R, es[1..], env, d1.c), d, r);
      }
      Compose(history, d1, r1, d, r);
    }
  }

  lemma {:induction false} ExecMirrors(ops: Ops, w: World, history: seq<Entry>, s: Stmt, env: Env, c: Calls)
    requires Starts(history, c, Exec(Machine(ops, Direct(w)), s, env, c).c)
    ensures Mirrors(history, Exec(Machine(ops, Direct(w)), s, env, c), Exec(Machine(ops, Replay(history)), s, env, c))
    decreases s, 1
  {
    var D, R := Machine(ops, Direct(w)), Machine(ops, Replay(history));
    var d, r := Exec(D, s, env, c), Exec(R, s, env, c);
    var e := match s case Assign(_, e) => e case Evaluate(e) => e case If(e, _, _) => e case For(_, e, _) => e;
    var d1, r1 := Eval(D, e, env, c), Eval(R, e, env, c);
    StartsPart(history, c, d1.c, d.c);
    EvalMirrors(ops, w, history, e, env, c);
    if d1.Ok? && Reaches(history, d1.c) {
      match s
      case If(_, a, b) => ExecBlockMirrors(ops, w, history, if Truthy(d1.v) then a else b, env, d1.c);
      case For(x, _, body) =>
        if Iterate(d1.v).Some? {
          ExecForMirrors(ops, w, history, x, Iterate(d1.v).value, body, env, d1.c);
        }
      case _ =>
    }
    Compose(history, d1, r1, d, r);
  }

  lemma {:induction false} ExecBlockMirrors(ops: Ops, w: World, history: seq<Entry>, ss: seq<Stmt>, env: Env, c: Calls)
    requires Starts(history, c, ExecBlock(Machine(ops, Direct(w)), ss, env, c).c)
    ensures Mirrors(history, ExecBlock(Machine(ops, Direct(w)), ss, env, c),
                    ExecBlock(Machine(ops, Replay(history)), ss, env, c))
    decreases ss, 0
  {
    if ss != [] {
      var D, R := Machine(ops, Direct(w)), Machine(ops, Replay(history));
      var d1, r1 := Exec(D, ss[0], env, c), Exec(R, ss[0], env, c);
      StartsPart(history, c, d1.c, ExecBlock(D, ss, env, c).c);
      ExecMirrors(ops, w, history, ss[0], env, c);
      if d1.Ok? && Reaches(history, d1.c) {
        ExecBlockMirrors(ops, w, history, ss[1..], d1.v, d1.c);
      }
      Compose(history, d1, r1, ExecBlock(D, ss, env, c), ExecBlock(R, ss, env, c));
    }
  }

  lemma {:induction false} ExecForMirrors(
      ops: Ops, w: World, history: seq<Entry>, x: string, items: seq<Value>, body: seq<Stmt>, env: Env, c: Calls)
    requires Starts(history, c, ExecFor(Machine(ops, Direct(w)), x, items, body, env, c).c)
    ensures Mirrors(history, ExecFor(Machine(ops, Direct(w)), x, items, body, env, c),
                    ExecFor(Machine(ops, Replay(history)), x, items, body, env, c))
    decreases body, 1, |items|
  {
    if items != [] {
      var D, R := Machine(ops, Direct(w)), Machine(ops, Replay(history));
      var env1 := env[x := items[0]];
      var d1, r1 := ExecBlock(D, body, env1, c), ExecBlock(R, body, env1, c);
      StartsPart(history, c, d1.c, ExecFor(D, x, items, body, env, c).c);
      ExecBlockMirrors(ops, w, history, body, env1, c);
      if d1.Ok? && Reaches(history, d1.c) {
        ExecForMirrors(ops, w, history, x, items[1..], body, d1.v, d1.c);
      }
      Compose(history, d1, r1, ExecFor(D, x, items, body, env, c), ExecFor(R, x, items, body, env, c));
    }
  }
}
