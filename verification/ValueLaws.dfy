/** What the values of the code-mode language are: dictionaries, ranges, equality and the trip through JSON. */
module ValueLaws {
  import opened Prelude
  import opened CodeLanguage

  // ---------- Dictionary displays ----------

  /** A display of keys and values in turn: without any it is empty, and a key that equals none before it is added. */
  lemma NewKeyIsAdded(args: seq<Value>, key: Value, value: Value)
    requires BuildDict(args).Some? && Hashable(key)
    requires forall i | 0 <= i < |BuildDict(args).value.order| :: !Equal(BuildDict(args).value.order[i], key)
    ensures BuildDict([]) == Some(Dict([], map[]))
    ensures var d := BuildDict(args).value;
            BuildDict(args + [key, value]) == Some(Dict(d.order + [key], d.fields[key := value]))
  {
    var longer := args + [key, value];
    assert longer[..|longer| - 2] == args;
    NoKeyFound(BuildDict(args).value.order, key);
  }

  /** The search finds the first equal key, if there is one. */
  lemma {:induction false} NoKeyFound(order: seq<Value>, key: Value)
    requires forall i | 0 <= i < |order| :: !Equal(order[i], key)
    ensures FindKey(order, key) == None
  {
    if order != [] {
      NoKeyFound(order[1..], key);
    }
  }

  lemma {:induction false} FirstKeyFound(order: seq<Value>, key: Value, i: nat)
    requires i < |order| && Equal(order[i], key) && forall j | 0 <= j < i :: !Equal(order[j], key)
    ensures FindKey(order, key) == Some(order[i])
  {
    if i > 0 {
      FirstKeyFound(order[1..], key, i - 1);
    }
  }

  /** A key that equals one that is there keeps the place and the form of that one and takes the new value. */
  lemma EqualKeyReplaces(args: seq<Value>, key: Value, value: Value, i: nat)
    requires BuildDict(args).Some? && Hashable(key)
    requires i < |BuildDict(args).value.order| && Equal(BuildDict(args).value.order[i], key)
    requires forall j | 0 <= j < i :: !Equal(BuildDict(args).value.order[j], key)
    ensures var d := BuildDict(args).value;
            BuildDict(args + [key, value]) == Some(Dict(d.order, d.fields[d.order[i] := value]))
  {
    var longer := args + [key, value];
    assert longer[..|longer| - 2] == args;
    FirstKeyFound(BuildDict(args).value.order, key, i);
  }

  /** A key that holds a list or a dictionary is refused. */
  lemma UnhashableKeyIsRefused(args: seq<Value>, key: Value, value: Value)
    requires !Hashable(key)
    ensures BuildDict(args + [key, value]) == None
    ensures !Hashable(List([])) && !Hashable(Tuple([List([])])) && Hashable(Tuple([Int(1), Str("")]))
  {
    var longer := args + [key, value];
    assert longer[..|longer| - 2] == args;
    assert !Hashable(Tuple([List([])]).items[0]);
  }

  // ---------- Ranges ----------

  /** The elements start at the first argument and go on by the step. */
  lemma RangeGoesOnByItsStep(args: seq<Value>, i: nat)
    requires BoundedRange(args).Some? && i < |BoundedRange(args).value|
    ensures var elements, (lo, _, step) := BoundedRange(args).value, RangeArguments(args).value;
            elements[0] == lo && (i > 0 ==> elements[i] == elements[i - 1] + step)
  {
    var (lo, _, step) := RangeArguments(args).value;
    assert i > 0 ==> (i - 1) * step + step == i * step;
  }

  /** A range is refused exactly when its arguments are bad or it has a 1001st element. */
  lemma RangeIsBounded(args: seq<Value>)
    requires RangeArguments(args).Some?
    ensures var (lo, hi, step) := RangeArguments(args).value;
            BoundedRange(args).Some? <==> !Before(lo + 1000 * step, hi, step)
  {
    var (lo, hi, step) := RangeArguments(args).value;
    StepsReach(lo, hi, step, 1000);
  }

  /** Start and step may be left out; three integers, the last not zero, are a range. */
  lemma RangeDefaults(lo: int, hi: int, step: int, v: Value)
    ensures RangeArguments([Int(hi)]) == Some((0, hi, 1)) && RangeArguments([Int(lo), Int(hi)]) == Some((lo, hi, 1))
    ensures RangeArguments([Int(lo), Int(hi), Int(step)]) == if step == 0 then None else Some((lo, hi, step))
    ensures RangeArguments([Bool(true)]) == Some((0, 1, 1))
    ensures RangeArguments([]) == None && RangeArguments([v, v, v, v]) == None
    ensures !v.Int? && !v.Bool? ==> RangeArguments([v]) == None
  {
  }

  // ---------- Equality and JSON ----------

  /** Python's `==` across types, and inside containers. */
  lemma EqualAcrossTypes(n: int, text: string, s: string, xs: seq<Value>, ys: seq<Value>)
    ensures Equal(Int(n), Float(Finite(n as real, text))) && Equal(Int(1), Bool(true)) && Equal(Bool(false), Int(0))
    ensures !Equal(Str(s), Int(n)) && !Equal(List(xs), Tuple(ys)) && !Equal(Null, Bool(false))
    ensures Equal(List(xs), List(ys)) <==> |xs| == |ys| && forall i | 0 <= i < |xs| :: Equal(xs[i], ys[i])
    ensures !Equal(Float(Nan(false)), Float(Nan(false))) && Equal(Float(Nan(true)), Float(Nan(true)))
  {
  }

  /** A tuple is stored as the list of its items, each in its own JSON form; a NaN as the one that JSON knows. */
  lemma JsonOfSequences(xs: seq<Value>, i: nat)
    requires i < |xs|
    ensures Wire(Tuple(xs)) == Wire(List(xs))
    ensures Wire(List(xs)).List? && |Wire(List(xs)).items| == |xs| && Wire(List(xs)).items[i] == Wire(xs[i])
    ensures Wire(Float(Nan(false))) == Float(Nan(true))
  {
  }

  /** What json.dumps accepts: no ranges, no functions, and keys that are scalars. */
  lemma EncodableWhen(v: Value)
    ensures v.Range? || v.Function? ==> !Encodable(v)
    ensures v.List? || v.Tuple? ==> (Encodable(v) <==> forall i | 0 <= i < |v.items| :: Encodable(v.items[i]))
    ensures v.Dict? ==> (Encodable(v) <==>
              forall k | k in v.fields ::
                !k.List? && !k.Tuple? && !k.Dict? && !k.Range? && !k.Function? && Encodable(v.fields[k]))
    ensures v.Null? || v.Bool? || v.Int? || v.Str? || v.Float? ==> Encodable(v)
  {
  }

  /** Numbers, strings and the constants are stored as they are. */
  lemma JsonOfScalars(v: Value)
    requires v.Null? || v.Bool? || v.Int? || v.Str? || (v.Float? && !v.f.Nan?)
    ensures Wire(v) == v && Encodable(v)
  {
  }

  /** A key is stored under its text. */
  lemma JsonOfOneKey(k: Value, v: Value)
    ensures Wire(Dict([k], map[k := v])) == Dict([Str(KeyText(k))], map[Str(KeyText(k)) := Wire(v)])
  {
    var order, fields := [k], map[k := v];
    assert order[..0] == [] && TextOrder([], fields) == [];
    var text := Str(KeyText(k));
    assert TextOrder(order, fields) == [text];
    assert TextKeys(order, fields) == {text};
    assert Source(order, fields, text) == k;
    assert Wire(Dict(order, fields)).fields == map[text := Wire(v)];
  }

  /** The texts that JSON has for the constants, for strings, and for numbers. */
  lemma TextsOfConstants(s: string)
    ensures KeyText(Null) == "null" && KeyText(Bool(true)) == "true" && KeyText(Bool(false)) == "false"
    ensures KeyText(Str(s)) == s
  {
  }

  lemma TextsOfNumbers(n: nat)
    ensures KeyText(Int(n)) == Digits(n)
    ensures n > 0 ==> KeyText(Int(0 - n)) == "-" + Digits(n)
  {
    if n > 0 {
      var negative: int := 0 - n;
      assert negative < 0 && -negative == n;
    }
  }

  /** Of two keys that become the same text the later one is read back, in the place of the earlier. */
  lemma LaterKeyWins(a: Value, b: Value)
    ensures Wire(Dict([Int(1), Str("1")], map[Int(1) := a, Str("1") := b]))
         == Dict([Str("1")], map[Str("1") := Wire(b)])
  {
    var order, fields := [Int(1), Str("1")], map[Int(1) := a, Str("1") := b];
    assert order[..1] == [Int(1)] && order[..1][..0] == [];
    assert Digits(1) == "1" && KeyText(Int(1)) == "1";
    assert TextOrder([], fields) == [] && TextOrder([Int(1)], fields) == [Str("1")];
    assert TextOrder(order, fields) == [Str("1")];
    assert TextKeys(order, fields) == {Str("1")};
    assert Source(order, fields, Str("1")) == Str("1");
    assert Wire(Dict(order, fields)).fields == map[Str("1") := Wire(b)];
  }

  /** The number a decimal numeral stands for. */
  function NumberOf(s: string): int {
    if s == "" then 0 else NumberOf(s[..|s| - 1]) * 10 + (s[|s| - 1] as int - '0' as int)
  }

  /** `Digits` writes a number in decimal, without leading zeros. */
  lemma {:induction false} DigitsAreDecimal(n: nat)
    ensures NumberOf(Digits(n)) == n
    ensures Digits(n) != "" && (Digits(n)[0] == '0' <==> n == 0)
    ensures forall i | 0 <= i < |Digits(n)| :: '0' <= Digits(n)[i] <= '9'
  {
    if n < 10 {
      assert Digits(n)[..0] == "";
    } else {
      DigitsAreDecimal(n / 10);
      var s := Digits(n);
      assert s[..|s| - 1] == Digits(n / 10);
    }
  }
}
