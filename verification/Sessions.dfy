/**
 The append-only session log (src/lightworker/sessions.py): saving a stale copy merges instead of
 replacing, and the last event of each name is the state of that name.
 */
module Sessions {
  import opened Prelude

  /** JSON values: `null`, and others by their text. */
  datatype Json = Null | Json(text: string)

  /** Python's `==` on the values of two texts: `{"done": 0}` equals `{"done": false}`. */
  type Equality = (Json, Json) -> bool

  /** All that is needed of it: nothing equals None but None. */
  ghost predicate Sensible(same: Equality) {
    forall v :: (same(Null, v) <==> v == Null) && (same(v, Null) <==> v == Null)
  }

  datatype Data = StateUpdated(name: string, value: Json) | Other(kind: string)

  /** `key` is the idempotency key inside the event's data, "" when there is none. */
  datatype Event = Event(id: string, sequence: nat, data: Data, key: string)

  predicate Known(log: seq<Event>, id: string) {
    exists i | 0 <= i < |log| :: log[i].id == id
  }

  /** `Session.validate`: no event id occurs twice. */
  predicate DistinctIds(log: seq<Event>) {
    forall i, j | 0 <= i < j < |log| :: log[i].id != log[j].id
  }

  predicate Numbered(log: seq<Event>) {
    forall i | 0 <= i < |log| :: log[i].sequence == i + 1
  }

  /** The events of a copy that the log does not have, in the copy's order. */
  function Additions(log: seq<Event>, copy: seq<Event>): (r: seq<Event>)
    ensures |r| <= |copy|
  {
    if copy == [] then
      []
    else
      var last := copy[|copy| - 1];
      var before := Additions(log, copy[..|copy| - 1]);
      if Known(log, last.id) then before else before + [last]
  }

  function Renumbered(events: seq<Event>, first: nat): (r: seq<Event>)
    ensures |r| == |events|
  {
    seq(|events|, i requires 0 <= i < |events| => events[i].(sequence := first + i))
  }

  function Merged(log: seq<Event>, copy: seq<Event>): seq<Event> {
    log + Renumbered(Additions(log, copy), |log| + 1)
  }

  /** Where an event of the copy went among the additions. */
  function Place(log: seq<Event>, copy: seq<Event>, i: nat): nat
    requires i < |copy|
  {
    |Additions(log, copy[..i])|
  }

  lemma {:induction false} AdditionsPlaced(log: seq<Event>, copy: seq<Event>, i: nat)
    requires i < |copy| && !Known(log, copy[i].id)
    ensures Place(log, copy, i) < |Additions(log, copy)|
    ensures Additions(log, copy)[Place(log, copy, i)] == copy[i]
  {
    var init := copy[..|copy| - 1];
    if i < |init| {
      AdditionsPlaced(log, init, i);
      assert init[..i] == copy[..i];
    }
  }

  lemma {:induction false} PlacesIncrease(log: seq<Event>, copy: seq<Event>, i: nat, j: nat)
    requires i < j < |copy| && !Known(log, copy[i].id)
    ensures Place(log, copy, i) < Place(log, copy, j)
    decreases j
  {
    AdditionsPlaced(log, copy[..j], i);
    assert copy[..j][..i] == copy[..i];
  }

  /** Every addition comes from the copy and is new. */
  lemma {:induction false} AdditionsOrigin(log: seq<Event>, copy: seq<Event>)
    ensures forall k | 0 <= k < |Additions(log, copy)| ::
              !Known(log, Additions(log, copy)[k].id)
              && exists i | 0 <= i < |copy| :: copy[i] == Additions(log, copy)[k] && Place(log, copy, i) == k
  {
    if copy != [] {
      var init := copy[..|copy| - 1];
      AdditionsOrigin(log, init);
      forall k | 0 <= k < |Additions(log, copy)|
        ensures !Known(log, Additions(log, copy)[k].id)
        ensures exists i | 0 <= i < |copy| :: copy[i] == Additions(log, copy)[k] && Place(log, copy, i) == k
      {
        if k < |Additions(log, init)| {
          var i :| 0 <= i < |init| && init[i] == Additions(log, init)[k] && Place(log, init, i) == k;
          assert init[..i] == copy[..i];
          assert copy[i] == Additions(log, copy)[k] && Place(log, copy, i) == k;
        } else {
          assert Place(log, copy, |copy| - 1) == k;
        }
      }
    }
  }

  lemma AdditionsDistinct(log: seq<Event>, copy: seq<Event>)
    requires DistinctIds(copy)
    ensures DistinctIds(Additions(log, copy))
  {
    var added := Additions(log, copy);
    AdditionsOrigin(log, copy);
    forall k, l | 0 <= k < l < |added| ensures added[k].id != added[l].id {
      var i :| 0 <= i < |copy| && copy[i] == added[k] && Place(log, copy, i) == k;
      var j :| 0 <= j < |copy| && copy[j] == added[l] && Place(log, copy, j) == l;
      assert i != j;
    }
  }

  /** A well-formed log stays well formed whatever copy is merged into it. */
  lemma MergeKeepsLog(log: seq<Event>, copy: seq<Event>)
    requires DistinctIds(log) && Numbered(log) && DistinctIds(copy)
    ensures log <= Merged(log, copy) && DistinctIds(Merged(log, copy)) && Numbered(Merged(log, copy))
  {
    var added := Additions(log, copy);
    AdditionsDistinct(log, copy);
    AdditionsOrigin(log, copy);
    forall i, j | 0 <= i < j < |Merged(log, copy)| ensures Merged(log, copy)[i].id != Merged(log, copy)[j].id {
      if i < |log| <= j {
        assert !Known(log, added[j - |log|].id);
      } else if |log| <= i {
        assert added[i - |log|].id != added[j - |log|].id;
      }
    }
  }

  /** Whatever the merge adds is a new event of the copy, at its place. */
  lemma MergeAddsNothingElse(log: seq<Event>, copy: seq<Event>, k: nat) returns (i: nat)
    requires |log| <= k < |Merged(log, copy)|
    ensures i < |copy| && !Known(log, copy[i].id) && k == |log| + Place(log, copy, i)
    ensures Merged(log, copy)[k] == copy[i].(sequence := k + 1)
  {
    AdditionsOrigin(log, copy);
    var added := Additions(log, copy)[k - |log|];
    assert !Known(log, added.id);
    i :| 0 <= i < |copy| && copy[i] == added && Place(log, copy, i) == k - |log|;
  }

  /** No event of the copy is lost, and its new events keep their order. */
  lemma MergeKeepsCopy(log: seq<Event>, copy: seq<Event>)
    ensures forall i | 0 <= i < |copy| :: Known(Merged(log, copy), copy[i].id)
    ensures forall i | 0 <= i < |copy| && !Known(log, copy[i].id) ::
              var k := |log| + Place(log, copy, i);
              k < |Merged(log, copy)| && Merged(log, copy)[k] == copy[i].(sequence := k + 1)
    ensures forall i, j | 0 <= i < j < |copy| && !Known(log, copy[i].id) :: Place(log, copy, i) < Place(log, copy, j)
  {
    forall i | 0 <= i < |copy| && !Known(log, copy[i].id)
      ensures var k := |log| + Place(log, copy, i);
              k < |Merged(log, copy)| && Merged(log, copy)[k] == copy[i].(sequence := k + 1)
    {
      AdditionsPlaced(log, copy, i);
    }
    forall i | 0 <= i < |copy| ensures Known(Merged(log, copy), copy[i].id) {
      if Known(log, copy[i].id) {
        var k :| 0 <= k < |log| && log[k].id == copy[i].id;
        assert Merged(log, copy)[k].id == copy[i].id;
      } else {
        assert Merged(log, copy)[|log| + Place(log, copy, i)].id == copy[i].id;
      }
    }
    forall i, j | 0 <= i < j < |copy| && !Known(log, copy[i].id) ensures Place(log, copy, i) < Place(log, copy, j) {
      PlacesIncrease(log, copy, i, j);
    }
  }

  /** Saving what the log already has changes nothing; so saving twice is saving once. */
  lemma {:induction false} ResaveIsNoOp(log: seq<Event>, copy: seq<Event>)
    requires forall i | 0 <= i < |copy| :: Known(log, copy[i].id)
    ensures Merged(log, copy) == log
  {
    if copy != [] {
      ResaveIsNoOp(log, copy[..|copy| - 1]);
      assert |Merged(log, copy[..|copy| - 1])| == |log|;
    }
  }

  // ---------- Writers in any interleaving ----------

  datatype Op =
    | Save(copy: seq<Event>)
    | Append(id: string, data: Data, key: string, expected: Option<nat>)

  datatype Effect = Effect(log: seq<Event>, ok: bool)

  predicate HasKey(log: seq<Event>, key: string) {
    key != "" && exists i | 0 <= i < |log| :: log[i].key == key
  }

  function Apply(log: seq<Event>, op: Op): Effect {
    match op
    case Save(copy) =>
      if DistinctIds(copy) then Effect(Merged(log, copy), true) else Effect(log, false)
    case Append(id, data, key, expected) =>
      if HasKey(log, key) then Effect(log, true)
      else if expected.Some? && expected.value != |log| then Effect(log, false)
      else if Known(log, id) then Effect(log, false)
      else Effect(log + [Event(id, |log| + 1, data, key)], true)
  }

  function After(ops: seq<Op>): seq<Event> {
    if ops == [] then [] else Apply(After(ops[..|ops| - 1]), ops[|ops| - 1]).log
  }

  lemma ApplyKeepsLog(log: seq<Event>, op: Op)
    requires DistinctIds(log) && Numbered(log)
    ensures var after := Apply(log, op).log;
            log <= after && DistinctIds(after) && Numbered(after)
  {
    if op.Save? && DistinctIds(op.copy) {
      MergeKeepsLog(log, op.copy);
    }
  }

  /** In every run each earlier log is a prefix of each later one, numbered 1 to n, without duplicates. */
  lemma {:induction false} LogsOnlyGrow(ops: seq<Op>, i: nat)
    requires i <= |ops|
    ensures After(ops[..i]) <= After(ops)
    ensures DistinctIds(After(ops)) && Numbered(After(ops))
    decreases |ops|
  {
    if i == |ops| {
      assert ops[..i] == ops;
    }
    if ops != [] {
      var init := ops[..|ops| - 1];
      LogsOnlyGrow(init, if i < |ops| then i else 0);
      ApplyKeepsLog(After(init), ops[|ops| - 1]);
      assert i < |ops| ==> init[..i] == ops[..i];
    }
  }

  /** Of two appends without a key that expect the same sequence, at most one succeeds. */
  lemma SameSequenceOnce(ops: seq<Op>, i: nat, k: nat)
    requires i < k < |ops| && ops[i].Append? && ops[k].Append?
    requires ops[i].key == ops[k].key == "" && ops[i].expected.Some? && ops[i].expected == ops[k].expected
    ensures !Apply(After(ops[..i]), ops[i]).ok || !Apply(After(ops[..k]), ops[k]).ok
  {
    LogsOnlyGrow(ops[..k], i + 1);
    assert ops[..k][..i + 1] == ops[..i + 1];
    assert ops[..i + 1][..i] == ops[..i];
  }

  /** Operation `i` appends an event of its own: no event with its key is there yet, and it is accepted. */
  predicate Adds(ops: seq<Op>, i: nat)
    requires i < |ops|
  {
    ops[i].Append? && Apply(After(ops[..i]), ops[i]).ok && !HasKey(After(ops[..i]), ops[i].key)
  }

  lemma AfterStep(ops: seq<Op>, i: nat)
    requires i < |ops|
    ensures After(ops[..i + 1]) == Apply(After(ops[..i]), ops[i]).log
  {
    assert ops[..i + 1][..i] == ops[..i];
  }

  lemma KeyStays(log: seq<Event>, longer: seq<Event>, key: string)
    requires log <= longer && HasKey(log, key)
    ensures HasKey(longer, key)
  {
    var i :| 0 <= i < |log| && log[i].key == key;
    assert longer[i].key == key;
  }

  /**
   What becomes of an append.  One that is accepted adds exactly one event, with its id, its data and its key, and the
   event is still there, at its place, at every later point of the run.
   */
  lemma AppendedEventStays(ops: seq<Op>, i: nat, k: nat)
    requires i < k <= |ops| && Adds(ops, i)
    ensures var n := |After(ops[..i])|;
            && |After(ops[..i + 1])| == n + 1 && n < |After(ops[..k])|
            && After(ops[..i + 1])[..n] == After(ops[..i])
            && After(ops[..k])[n] == Event(ops[i].id, n + 1, ops[i].data, ops[i].key)
  {
    AfterStep(ops, i);
    LogsOnlyGrow(ops[..k], i + 1);
    assert ops[..k][..i + 1] == ops[..i + 1];
  }

  /**
   A key is used once.  When an append with a key has succeeded, every later append with that key succeeds too, whatever
   it expects and whatever its id, and leaves the log as it is.
   */
  lemma KeyedAppendOnce(ops: seq<Op>, i: nat, k: nat)
    requires i < k < |ops| && ops[i].Append? && ops[k].Append? && ops[i].key == ops[k].key != ""
    requires Apply(After(ops[..i]), ops[i]).ok
    ensures Apply(After(ops[..k]), ops[k]) == Effect(After(ops[..k]), true)
  {
    var log := After(ops[..i + 1]);
    AfterStep(ops, i);
    assert log[|log| - 1] in log;
    assert HasKey(log, ops[i].key);
    LogsOnlyGrow(ops[..k], i + 1);
    assert ops[..k][..i + 1] == ops[..i + 1];
    KeyStays(log, After(ops[..k]), ops[k].key);
  }

  // ---------- Named states ----------

  /** Backward scan. */
  function State(log: seq<Event>, name: string): Option<Json> {
    if log == [] then
      None
    else
      var last := log[|log| - 1].data;
      if last.StateUpdated? && last.name == name then Some(last.value) else State(log[..|log| - 1], name)
  }

  /** What callers of `state` see: absent reads as null. */
  function Value(log: seq<Event>, name: string): Json {
    var s := State(log, name);
    if s.Some? then s.value else Null
  }

  /** Forward replay. */
  function Replayed(states: map<string, Json>, log: seq<Event>): map<string, Json>
    decreases |log|
  {
    if log == [] then
      states
    else
      Replayed(match log[0].data case StateUpdated(name, value) => states[name := value] case _ => states, log[1..])
  }

  lemma {:induction false} ReplayedSnoc(states: map<string, Json>, log: seq<Event>, event: Event)
    ensures Replayed(states, log + [event])
         == match event.data
            case StateUpdated(name, value) => Replayed(states, log)[name := value]
            case _ => Replayed(states, log)
    decreases |log|
  {
    if log == [] {
      assert (log + [event])[1..] == [];
    } else {
      var states' := match log[0].data case StateUpdated(name, value) => states[name := value] case _ => states;
      ReplayedSnoc(states', log[1..], event);
      assert (log + [event])[1..] == log[1..] + [event];
    }
  }

  /** The backward scan and the forward replay agree about every name in every log. */
  lemma {:induction false} ScanAgreesWithReplay(log: seq<Event>, name: string)
    ensures State(log, name)
         == if name in Replayed(map[], log) then Some(Replayed(map[], log)[name]) else None
  {
    if log != [] {
      var init, event := log[..|log| - 1], log[|log| - 1];
      ScanAgreesWithReplay(init, name);
      ReplayedSnoc(map[], init, event);
      assert log == init + [event];
    }
  }

  /** The new events of a copy hold no state update of this name. */
  predicate Silent(log: seq<Event>, copy: seq<Event>, name: string) {
    forall i | 0 <= i < |copy| && !Known(log, copy[i].id) :: !(copy[i].data.StateUpdated? && copy[i].data.name == name)
  }

  lemma {:induction false} StateSkips(log: seq<Event>, more: seq<Event>, name: string)
    requires forall i | 0 <= i < |more| :: !(more[i].data.StateUpdated? && more[i].data.name == name)
    ensures State(log + more, name) == State(log, name)
    decreases |more|
  {
    if more == [] {
      assert log + more == log;
    } else {
      var init := more[..|more| - 1];
      StateSkips(log, init, name);
      assert (log + more)[..|log + more| - 1] == log + init;
    }
  }

  /** A stale save cannot roll a state back. */
  lemma StaleSaveKeepsState(log: seq<Event>, copy: seq<Event>, name: string)
    requires Silent(log, copy, name)
    ensures State(Merged(log, copy), name) == State(log, name)
  {
    AdditionsOrigin(log, copy);
    var more := Renumbered(Additions(log, copy), |log| + 1);
    forall k | 0 <= k < |more| ensures !(more[k].data.StateUpdated? && more[k].data.name == name) {
      var added := Additions(log, copy)[k];
      assert !Known(log, added.id);
      var i :| 0 <= i < |copy| && copy[i] == added;
      assert more[k].data == copy[i].data;
    }
    StateSkips(log, more, name);
  }

  class SessionStore {
    var log: seq<Event>

    constructor ()
      ensures log == []
    {
      log := [];
    }

    /** `save`: the caller's copy is replaced by the merged log. */
    method Save(copy: seq<Event>) returns (ok: bool, updated: seq<Event>)
      modifies this
      ensures Effect(log, ok) == Apply(old(log), Op.Save(copy))
      ensures updated == if ok then log else copy
    {
      if !DistinctIds(copy) {
        return false, copy;
      }
      var merged := log;
      for i := 0 to |copy|
        invariant merged == Merged(log, copy[..i])
      {
        assert copy[..i + 1][..i] == copy[..i];
        if !Known(log, copy[i].id) {
          merged := merged + [copy[i].(sequence := |merged| + 1)];
        }
      }
      assert copy[..|copy|] == copy;
      log := merged;
      return true, merged;
    }

    method AppendIfSequence(id: string, data: Data, key: string, expected: Option<nat>) returns (ok: bool)
      modifies this
      ensures Effect(log, ok) == Apply(old(log), Append(id, data, key, expected))
      ensures
        if key != "" && exists i | 0 <= i < |old(log)| :: old(log)[i].key == key then
          ok && log == old(log)
        else if expected.Some? && expected.value != |old(log)| then
          !ok && log == old(log)
        else if exists i | 0 <= i < |old(log)| :: old(log)[i].id == id then
          !ok && log == old(log)
        else
          ok && log == old(log) + [Event(id, |old(log)| + 1, data, key)]
    {
      if key != "" {
        for i := 0 to |log|
          invariant forall k | 0 <= k < i :: log[k].key != key
        {
          if log[i].key == key {
            return true;
          }
        }
      }
      if expected.Some? && expected.value != |log| {
        return false;
      }
      if Known(log, id) {
        return false;
      }
      log := log + [Event(id, |log| + 1, data, key)];
      return true;
    }

    method StateOf(name: string) returns (value: Json)
      ensures value == Value(log, name)
    {
      var i := |log|;
      assert log[..i] == log;
      while i > 0
        invariant 0 <= i <= |log| && State(log[..i], name) == State(log, name)
      {
        i := i - 1;
        assert log[..i + 1][..i] == log[..i];
        var data := log[i].data;
        if data.StateUpdated? && data.name == name {
          return data.value;
        }
      }
      return Null;
    }

    method Replay() returns (states: map<string, Json>)
      ensures forall name :: State(log, name) == if name in states then Some(states[name]) else None
    {
      states := map[];
      for i := 0 to |log|
        invariant Replayed(map[], log) == Replayed(states, log[i..])
      {
        assert log[i..][1..] == log[i + 1..];
        match log[i].data {
          case StateUpdated(name, value) => states := states[name := value];
          case _ =>
        }
      }
      forall name ensures State(log, name) == if name in states then Some(states[name]) else None {
        ScanAgreesWithReplay(log, name);
      }
    }

    /** Nothing is appended when the current value equals the new one. */
    method SetState(same: Equality, id: string, name: string, value: Json) returns (ok: bool)
      modifies this
      ensures if same(Value(old(log), name), value) then
                ok && log == old(log)
              else
                Effect(log, ok) == Apply(old(log), Append(id, StateUpdated(name, value), "", None))
    {
      var current := StateOf(name);
      if same(current, value) {
        return true;
      }
      ok := AppendIfSequence(id, StateUpdated(name, value), "", None);
    }
  }
}
