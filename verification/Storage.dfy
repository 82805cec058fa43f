/**
 `RunStore.write_json` and `read_json` (src/lightworker/storage.py) for the canonical names: the session
 log is the authority, and a compatibility file beside it is only read when the log has no state.
 */
module Storage {
  import opened Prelude
  import opened Sessions

  /** What the compatibility file holds. */
  datatype File = Missing | Corrupt | Content(value: Json)

  datatype Disk = Disk(log: seq<Event>, files: map<string, File>)

  datatype Read = Found(value: Json) | Absent | Invalid | SaveFailed

  function FileOf(disk: Disk, name: string): File {
    if name in disk.files then disk.files[name] else Missing
  }

  /** The log after `set_state`, and whether it could be stored. */
  function Stored(same: Equality, log: seq<Event>, id: string, name: string, value: Json): Effect {
    if same(Value(log, name), value) then
      Effect(log, true)
    else
      Apply(log, Append(id, StateUpdated(name, value), "", None))
  }

  function Written(same: Equality, disk: Disk, id: string, name: string, value: Json): (Disk, bool) {
    var effect := Stored(same, disk.log, id, name, value);
    if effect.ok then
      (Disk(effect.log, disk.files[name := Content(value)]), true)
    else
      (disk, false)
  }

  function Reading(same: Equality, disk: Disk, id: string, name: string): (Disk, Read) {
    if Value(disk.log, name) != Null then
      (disk, Found(Value(disk.log, name)))
    else
      match FileOf(disk, name)
      case Missing => (disk, Absent)
      case Corrupt => (disk, Invalid)
      case Content(value) =>
        var effect := Stored(same, disk.log, id, name, value);
        if effect.ok then (disk.(log := effect.log), Found(value)) else (disk, SaveFailed)
  }

  /** `id` is the event id that uuid4 would draw. */
  class RunStore {
    const session: SessionStore
    const same: Equality
    var files: map<string, File>

    constructor (session: SessionStore, same: Equality)
      ensures this.session == session && this.same == same && files == map[]
    {
      this.session, this.same := session, same;
      files := map[];
    }

    function Contents(): Disk
      reads this, session
    {
      Disk(session.log, files)
    }

    method WriteJson(id: string, name: string, value: Json) returns (ok: bool)
      modifies this, session
      ensures (Contents(), ok) == Written(same, old(Contents()), id, name, value)
    {
      ok := session.SetState(same, id, name, value);
      if ok {
        files := files[name := Content(value)];
      }
    }

    method ReadJson(id: string, name: string) returns (r: Read)
      modifies this, session
      ensures (Contents(), r) == Reading(same, old(Contents()), id, name)
    {
      var projected := session.StateOf(name);
      if projected != Null {
        return Found(projected);
      }
      match FileOf(Contents(), name) {
        case Missing => r := Absent;
        case Corrupt => r := Invalid;
        case Content(value) =>
          var ok := session.SetState(same, id, name, value);
          r := if ok then Found(value) else SaveFailed;
      }
    }
  }

  lemma StateOfAppend(log: seq<Event>, event: Event, name: string)
    ensures State(log + [event], name)
         == if event.data.StateUpdated? && event.data.name == name then Some(event.data.value) else State(log, name)
  {
    assert (log + [event])[..|log|] == log;
  }

  /** Storing `value` leaves the old state in place: the two are equal, but not the same JSON. */
  predicate Stuck(same: Equality, log: seq<Event>, name: string, value: Json) {
    same(Value(log, name), value) && Value(log, name) != value
  }

  /** The state holds the value, or one that equals it. */
  predicate Holds(same: Equality, state: Json, value: Json) {
    state == value || same(state, value)
  }

  lemma StoredState(same: Equality, log: seq<Event>, id: string, name: string, value: Json, other: string)
    requires Stored(same, log, id, name, value).ok
    ensures Value(Stored(same, log, id, name, value).log, other)
         == if other == name && !Stuck(same, log, name, value) then value else Value(log, other)
  {
    StateOfAppend(log, Event(id, |log| + 1, StateUpdated(name, value), ""), other);
  }

  function WithFile(disk: Disk, name: string, file: File): Disk {
    disk.(files := disk.files[name := file])
  }

  /** A read finds `value` whatever has become of the compatibility file. */
  ghost predicate Survives(same: Equality, disk: Disk, name: string, value: Json) {
    forall file, id :: Reading(same, WithFile(disk, name, file), id, name).1 == Found(value)
  }

  lemma StateSurvives(same: Equality, disk: Disk, name: string, value: Json)
    ensures Survives(same, disk, name, value) <==> value == Value(disk.log, name) && value != Null
  {
    var read := Reading(same, WithFile(disk, name, Missing), "", name).1;
    if Value(disk.log, name) == Null {
      assert read == Absent;
    }
  }

  /**
   After a write, reads are independent of the compatibility file exactly when the value is not null; and they
   give the very value exactly when, besides, the state before was not another value that equals it.
   */
  lemma ReadSurvivesFileLossIffNotNull(same: Equality, disk: Disk, id: string, name: string, value: Json)
    requires Sensible(same) && Written(same, disk, id, name, value).1
    ensures var after := Written(same, disk, id, name, value).0;
            && ((exists v :: Survives(same, after, name, v) && Holds(same, v, value)) <==> value != Null)
            && (Survives(same, after, name, value) <==> value != Null && !Stuck(same, disk.log, name, value))
  {
    var after := Written(same, disk, id, name, value).0;
    StoredState(same, disk.log, id, name, value, name);
    StateSurvives(same, after, name, value);
    var state := Value(after.log, name);
    StateSurvives(same, after, name, state);
    if v :| Survives(same, after, name, v) && Holds(same, v, value) {
      StateSurvives(same, after, name, v);
    }
  }

  /**
   A state that only the file holds is found there, and from then on the log holds it: reads no longer depend on the
   file.  A file that is missing or unreadable is reported as such and changes nothing.
   */
  lemma FileIsAdopted(same: Equality, disk: Disk, id: string, name: string)
    requires Sensible(same) && Value(disk.log, name) == Null && !Known(disk.log, id)
    ensures var (after, read) := Reading(same, disk, id, name);
            if name !in disk.files || disk.files[name].Missing? then
              read == Absent && after == disk
            else if disk.files[name].Corrupt? then
              read == Invalid && after == disk
            else
              var value := disk.files[name].value;
              && read == Found(value) && after.files == disk.files && Value(after.log, name) == value
              && (value != Null ==> Survives(same, after, name, value))
  {
    var (after, read) := Reading(same, disk, id, name);
    if FileOf(disk, name).Content? {
      var value := FileOf(disk, name).value;
      StoredState(same, disk.log, id, name, value, name);
      StateSurvives(same, after, name, value);
    }
  }

  /** A write leaves its value in the file, and every other name's file and state as they were. */
  lemma WriteTouchesOneName(same: Equality, disk: Disk, id: string, name: string, value: Json, other: string)
    requires Written(same, disk, id, name, value).1
    ensures var after := Written(same, disk, id, name, value).0;
            && FileOf(after, name) == Content(value)
            && (other != name ==> FileOf(after, other) == FileOf(disk, other))
            && (other != name ==> State(after.log, other) == State(disk.log, other))
  {
    StateOfAppend(disk.log, Event(id, |disk.log| + 1, StateUpdated(name, value), ""), other);
  }

  // ---------- Whole runs ----------

  datatype Action =
    | Write(id: string, name: string, value: Json)
    | Look(id: string, name: string)
    | Tamper(name: string, file: File)
    | StaleSave(copy: seq<Event>)
    | Note(id: string, kind: string, key: string, expected: Option<nat>)

  function Perform(same: Equality, disk: Disk, action: Action): Disk {
    match action
    case Write(id, name, value) => Written(same, disk, id, name, value).0
    case Look(id, name) => Reading(same, disk, id, name).0
    case Tamper(name, file) => WithFile(disk, name, file)
    case StaleSave(copy) => disk.(log := Apply(disk.log, Save(copy)).log)
    case Note(id, kind, key, expected) => disk.(log := Apply(disk.log, Append(id, Other(kind), key, expected)).log)
  }

  function DiskAfter(same: Equality, run: seq<Action>): Disk {
    if run == [] then Disk([], map[]) else Perform(same, DiskAfter(same, run[..|run| - 1]), run[|run| - 1])
  }

  /** The last action is a write of this name that succeeds. */
  predicate Writes(same: Equality, run: seq<Action>, name: string) {
    && run != []
    && var action := run[|run| - 1];
       action.Write? && action.name == name
       && Written(same, DiskAfter(same, run[..|run| - 1]), action.id, name, action.value).1
  }

  /** The simple map, at one name: the last value that was successfully written. */
  function LastWritten(same: Equality, run: seq<Action>, name: string): Option<Json> {
    if run == [] then None
    else if Writes(same, run, name) then Some(run[|run| - 1].value)
    else LastWritten(same, run[..|run| - 1], name)
  }

  /** The last successful write of the name met another value that equals the one written. */
  predicate LastWriteStuck(same: Equality, run: seq<Action>, name: string) {
    if run == [] then false
    else if Writes(same, run, name) then
      Stuck(same, DiskAfter(same, run[..|run| - 1]).log, name, run[|run| - 1].value)
    else LastWriteStuck(same, run[..|run| - 1], name)
  }

  /** Stale copies bring no state update of their own: state updates are appended in transactions. */
  ghost predicate CopiesAreSilent(same: Equality, run: seq<Action>, name: string) {
    forall i | 0 <= i < |run| && run[i].StaleSave? :: Silent(DiskAfter(same, run[..i]).log, run[i].copy, name)
  }

  /**
   The log refines the map.  Whatever is done to the files, and however many stale copies are saved, a
   name whose last written value is not null has a state that holds that value, the same in both projections;
   and it is the very value exactly when the last write did not meet another value that equals it.
   */
  lemma {:induction false} LogRefinesMap(same: Equality, run: seq<Action>, name: string)
    requires Sensible(same) && CopiesAreSilent(same, run, name)
    requires LastWritten(same, run, name).Some? && LastWritten(same, run, name).value != Null
    ensures var state, last := State(DiskAfter(same, run).log, name), LastWritten(same, run, name).value;
            && state.Some? && state.value != Null && Holds(same, state.value, last)
            && (state.value == last <==> !LastWriteStuck(same, run, name))
            && name in Replayed(map[], DiskAfter(same, run).log)
            && Replayed(map[], DiskAfter(same, run).log)[name] == state.value
  {
    var init, action := run[..|run| - 1], run[|run| - 1];
    var disk := DiskAfter(same, init);
    if Writes(same, run, name) {
      StoredState(same, disk.log, action.id, name, action.value, name);
    } else {
      assert forall i | 0 <= i < |init| :: run[..i] == init[..i];
      LogRefinesMap(same, init, name);
      PerformKeepsState(same, disk, action, name);
    }
    ScanAgreesWithReplay(DiskAfter(same, run).log, name);
  }

  lemma PerformKeepsState(same: Equality, disk: Disk, action: Action, name: string)
    requires State(disk.log, name).Some? && State(disk.log, name).value != Null
    requires action.StaleSave? ==> Silent(disk.log, action.copy, name)
    requires action.Write? && action.name == name ==> !Written(same, disk, action.id, name, action.value).1
    ensures State(Perform(same, disk, action).log, name) == State(disk.log, name)
  {
    match action
    case Write(id, other, value) =>
      StateOfAppend(disk.log, Event(id, |disk.log| + 1, StateUpdated(other, value), ""), name);
    case Look(id, other) =>
      if FileOf(disk, other).Content? {
        StateOfAppend(disk.log, Event(id, |disk.log| + 1, StateUpdated(other, FileOf(disk, other).value), ""), name);
      }
    case Tamper(_, _) =>
    case StaleSave(copy) => StaleSaveKeepsState(disk.log, copy, name);
    case Note(id, kind, key, _) =>
      StateOfAppend(disk.log, Event(id, |disk.log| + 1, Other(kind), key), name);
  }

  /** Writing {"done": 0} and then {"done": false}: the state stays at 0, since the two are equal. */
  lemma FalseAfterZeroIsStuck(same: Equality)
    requires Sensible(same) && same(Json("{\"done\": 0}"), Json("{\"done\": false}"))
    ensures exists run :: LastWritten(same, run, "n") == Some(Json("{\"done\": false}"))
                       && State(DiskAfter(same, run).log, "n") == Some(Json("{\"done\": 0}"))
  {
    var zero, no := Write("a", "n", Json("{\"done\": 0}")), Write("b", "n", Json("{\"done\": false}"));
    var run := [zero, no];
    assert run[..1] == [zero] && [zero][..0] == [];
    var first := DiskAfter(same, [zero]);
    assert DiskAfter(same, []) == Disk([], map[]) && Written(same, Disk([], map[]), "a", "n", zero.value).1;
    StoredState(same, [], "a", "n", zero.value, "n");
    assert State(first.log, "n") == Some(zero.value);
    assert DiskAfter(same, run).log == first.log && Writes(same, run, "n");
    assert LastWritten(same, run, "n") == Some(no.value);
  }
}
