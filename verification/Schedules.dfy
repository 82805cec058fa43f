/**
 Persistent schedules (src/lightworker/schedules.py) and the dispatcher that settles their claims
 (src/lightworker/web.py).

 A schedule's id is its position of creation; the hash that names the run of an occurrence is the pair it is
 taken of.  Clock readings are arbitrary.
 */
module Schedules {
  import opened Prelude

  datatype Status = Active | Paused | Deleted | Completed

  /** The run that occurrence `occurrence` of a schedule creates. */
  datatype RunId = RunId(schedule: nat, occurrence: nat)

  datatype Schedule = Schedule(
    nextAt: real,
    interval: Option<nat>,
    status: Status,
    occurrence: nat,
    leaseUntil: real,
    epoch: nat,
    pending: Option<RunId>,
    last: Option<RunId>,
    error: Option<string>)

  datatype Action = Pause | Resume | Delete

  /** What `due` hands to the dispatcher. */
  datatype Claim = Claim(schedule: nat, epoch: nat, run: Option<RunId>)

  const LEASE_SECONDS := 60.0
  const RETRY_SECONDS := 60.0
  const MIN_INTERVAL := 60

  // One schedule

  function Created(nextAt: Option<real>, interval: Option<nat>, now: real): Schedule {
    var start := if nextAt.Some? && nextAt.value != 0.0 then nextAt.value else now;
    Schedule(start, interval, Active, 0, 0.0, 0, None, None, None)
  }

  function StatusOf(action: Action): Status {
    match action
    case Pause => Paused
    case Resume => Active
    case Delete => Deleted
  }

  function Controlled(s: Schedule, action: Action): Schedule {
    s.(status := StatusOf(action), epoch := s.epoch + 1, leaseUntil := 0.0)
  }

  predicate IsDue(s: Schedule, now: real) {
    s.status.Active? && s.nextAt <= now && s.leaseUntil <= now
  }

  function Claimed(i: nat, s: Schedule, now: real): Schedule {
    s.(leaseUntil := now + LEASE_SECONDS, epoch := s.epoch + 1, pending := Some(RunId(i, s.occurrence + 1)))
  }

  predicate Current(s: Schedule, epoch: nat) {
    s.status.Active? && s.epoch == epoch
  }

  /** `dispatched` under a current claim; an empty error text counts as no error. */
  function Settled(s: Schedule, error: string, now: real): Schedule {
    if error != "" then
      s.(error := Some(error), leaseUntil := 0.0, nextAt := now + RETRY_SECONDS)
    else
      var done :=
        s.(occurrence := s.occurrence + 1, last := s.pending, pending := None, leaseUntil := 0.0, error := None);
      if s.interval.Some? && s.interval.value != 0 then done.(nextAt := now + s.interval.value as real)
      else done.(status := Completed)
  }

  // The store

  /** What one call of `due` does to the schedules, and the claims it returns. */
  function AllClaimed(schedules: seq<Schedule>, now: real): (after: seq<Schedule>)
    ensures |after| == |schedules|
    ensures forall i | 0 <= i < |after| ::
      after[i] == if IsDue(schedules[i], now) then Claimed(i, schedules[i], now) else schedules[i]
  {
    if schedules == [] then
      []
    else
      var last := |schedules| - 1;
      AllClaimed(schedules[..last], now)
      + [if IsDue(schedules[last], now) then Claimed(last, schedules[last], now) else schedules[last]]
  }

  function ClaimOf(i: nat, s: Schedule): Claim {
    Claim(i, s.epoch + 1, Some(RunId(i, s.occurrence + 1)))
  }

  function Claims(schedules: seq<Schedule>, now: real): seq<Claim> {
    if schedules == [] then
      []
    else
      var last := |schedules| - 1;
      var before := Claims(schedules[..last], now);
      if IsDue(schedules[last], now) then before + [ClaimOf(last, schedules[last])] else before
  }

  /** One claim for every due schedule, and no other. */
  lemma {:induction false} ClaimsOfTheDue(schedules: seq<Schedule>, now: real, c: Claim)
    ensures c in Claims(schedules, now)
      <==> c.schedule < |schedules| && IsDue(schedules[c.schedule], now)
           && c == ClaimOf(c.schedule, schedules[c.schedule])
  {
    if schedules != [] {
      ClaimsOfTheDue(schedules[..|schedules| - 1], now, c);
    }
  }

  datatype Settlement = Recorded | StaleClaim | UnknownSchedule

  class ScheduleStore {
    var schedules: seq<Schedule>

    constructor ()
      ensures schedules == []
    {
      schedules := [];
    }

    method Create(blankTask: bool, nextAt: Option<real>, interval: Option<nat>, now: real) returns (r: Option<nat>)
      modifies this
      ensures r == if blankTask || (interval.Some? && interval.value < 60) then None
                   else Some(|old(schedules)|)
      ensures schedules == if r.Some? then old(schedules) + [Created(nextAt, interval, now)] else old(schedules)
    {
      if blankTask || (interval.Some? && interval.value < MIN_INTERVAL) {
        return None;
      }
      r := Some(|schedules|);
      schedules := schedules + [Created(nextAt, interval, now)];
    }

    method Control(i: nat, action: Action) returns (ok: bool)
      modifies this
      ensures ok == (i < |old(schedules)|)
      ensures schedules == if ok then old(schedules)[i := Controlled(old(schedules)[i], action)] else old(schedules)
    {
      ok := i < |schedules|;
      if ok {
        schedules := schedules[i := Controlled(schedules[i], action)];
      }
    }

    /** `due`: every due schedule is claimed under a new epoch, in the order of creation. */
    method Due(now: real) returns (claimed: seq<Claim>)
      modifies this
      ensures schedules == AllClaimed(old(schedules), now) && claimed == Claims(old(schedules), now)
    {
      claimed := [];
      ghost var before := schedules;
      for i := 0 to |schedules|
        invariant |schedules| == |before| && schedules[i..] == before[i..]
        invariant forall k | 0 <= k < i ::
          schedules[k] == if IsDue(before[k], now) then Claimed(k, before[k], now) else before[k]
        invariant claimed == Claims(before[..i], now)
      {
        assert schedules[i] == schedules[i..][0] && before[i] == before[i..][0];
        assert before[..i + 1][..i] == before[..i];
        if IsDue(schedules[i], now) {
          schedules := schedules[i := Claimed(i, schedules[i], now)];
          claimed := claimed + [Claim(i, schedules[i].epoch, schedules[i].pending)];
        }
      }
      assert before[..|before|] == before;
    }

    method Dispatched(i: nat, epoch: nat, error: string, now: real) returns (r: Settlement)
      modifies this
      ensures r == if i >= |old(schedules)| then UnknownSchedule
                   else if Current(old(schedules)[i], epoch) then Recorded else StaleClaim
      ensures schedules
           == if r.Recorded? then old(schedules)[i := Settled(old(schedules)[i], error, now)] else old(schedules)
    {
      if i >= |schedules| {
        return UnknownSchedule;
      }
      if !Current(schedules[i], epoch) {
        return StaleClaim;
      }
      schedules := schedules[i := Settled(schedules[i], error, now)];
      return Recorded;
    }

    /**
     One round of the dispatcher's loop: submitting the run fails with a message or succeeds, and every exception,
     also that of `dispatched` itself, is reported as an error.  The claim is settled at most once.
     */
    method Attempt(claim: Claim, failure: Option<string>, now: real) returns (r: Settlement)
      modifies this
      ensures var i := claim.schedule;
        r == if i >= |old(schedules)| then UnknownSchedule
             else if Current(old(schedules)[i], claim.epoch) then Recorded else StaleClaim
      ensures schedules == if r.Recorded? then
          old(schedules)[claim.schedule := Settled(old(schedules)[claim.schedule], ErrorText(failure), now)]
        else
          old(schedules)
    {
      if failure.None? {
        r := Dispatched(claim.schedule, claim.epoch, "", now);
        if r.StaleClaim? {
          r := Dispatched(claim.schedule, claim.epoch, "stale schedule claim", now);
        }
      } else {
        r := Dispatched(claim.schedule, claim.epoch, failure.value, now);
      }
    }
  }

  // Runs: any store operations and any settlements of outstanding claims, each claim settled once

  datatype Step =
    | Create(nextAt: Option<real>, interval: Option<nat>, now: real)
    | Control(i: nat, action: Action)
    | Due(now: real)
    | Settle(claim: Claim, failure: Option<string>, now: real)

  /** A run that was recorded as dispatched, and whether submitting it had failed. */
  datatype Record = Record(schedule: nat, run: Option<RunId>, failed: bool)

  /** What the dispatcher passes on as error: an exception's text may be empty. */
  function ErrorText(failure: Option<string>): string {
    if failure.Some? then failure.value else ""
  }

  /** The store, the claims that nobody has settled yet, and the runs recorded by successful dispatches. */
  datatype State = State(schedules: seq<Schedule>, open: set<Claim>, records: seq<Record>)

  const START := State([], {}, [])

  predicate Settles(s: State, claim: Claim) {
    claim in s.open && claim.schedule < |s.schedules| && Current(s.schedules[claim.schedule], claim.epoch)
  }

  function Next(s: State, step: Step): State {
    match step
    case Create(nextAt, interval, now) =>
      if interval.Some? && interval.value < MIN_INTERVAL then s
      else s.(schedules := s.schedules + [Created(nextAt, interval, now)])
    case Control(i, action) =>
      if i < |s.schedules| then s.(schedules := s.schedules[i := Controlled(s.schedules[i], action)]) else s
    case Due(now) =>
      s.(schedules := AllClaimed(s.schedules, now), open := s.open + set c | c in Claims(s.schedules, now))
    case Settle(claim, failure, now) =>
      if Settles(s, claim) then
        var i, error := claim.schedule, ErrorText(failure);
        State(s.schedules[i := Settled(s.schedules[i], error, now)],
              s.open - {claim},
              if error == "" then s.records + [Record(i, s.schedules[i].pending, failure.Some?)] else s.records)
      else s
  }

  function After(run: seq<Step>): State {
    if run == [] then START else Next(After(run[..|run| - 1]), run[|run| - 1])
  }

  /** The runs recorded for schedule `i`, in order. */
  function RunsOf(records: seq<Record>, i: nat): seq<Option<RunId>> {
    if records == [] then
      []
    else
      var before, last := RunsOf(records[..|records| - 1], i), records[|records| - 1];
      if last.schedule == i then before + [last.run] else before
  }

  /** Occurrences 1 to `n` of schedule `i`. */
  function Occurrences(i: nat, n: nat): seq<Option<RunId>> {
    if n == 0 then [] else Occurrences(i, n - 1) + [Some(RunId(i, n))]
  }

  ghost predicate GoodSchedule(s: State, i: nat)
    requires i < |s.schedules|
  {
    var n := s.schedules[i].occurrence;
    && RunsOf(s.records, i) == Occurrences(i, n)
    && s.schedules[i].last == if n == 0 then None else Some(RunId(i, n))
  }

  /** A claim whose epoch is still that of its schedule names the next occurrence. */
  ghost predicate GoodClaim(s: State, c: Claim) {
    && c.schedule < |s.schedules|
    && var schedule := s.schedules[c.schedule];
    && c.epoch <= schedule.epoch
    && (c.epoch == schedule.epoch ==> schedule.pending == c.run == Some(RunId(c.schedule, schedule.occurrence + 1)))
  }

  ghost predicate Good(s: State) {
    && (forall i | 0 <= i < |s.schedules| :: GoodSchedule(s, i))
    && (forall c | c in s.open :: GoodClaim(s, c))
    && (forall r | r in s.records :: r.schedule < |s.schedules|)
  }

  lemma {:induction false} NoRunsOf(records: seq<Record>, i: nat)
    requires forall r | r in records :: r.schedule != i
    ensures RunsOf(records, i) == []
  {
    if records != [] {
      NoRunsOf(records[..|records| - 1], i);
    }
  }

  lemma RecordOne(records: seq<Record>, r: Record, i: nat)
    ensures RunsOf(records + [r], i) == if r.schedule == i then RunsOf(records, i) + [r.run] else RunsOf(records, i)
  {
    assert (records + [r])[..|records|] == records;
  }

  lemma SettleKeepsSchedule(s: State, claim: Claim, failure: Option<string>, now: real, j: nat)
    requires Good(s) && Settles(s, claim) && j < |s.schedules|
    ensures s.schedules[claim.schedule].pending == claim.run
    ensures GoodSchedule(Next(s, Settle(claim, failure, now)), j)
  {
    var i := claim.schedule;
    assert GoodClaim(s, claim) && GoodSchedule(s, j);
    RecordOne(s.records, Record(i, s.schedules[i].pending, failure.Some?), j);
    if i != j || ErrorText(failure) != "" {
      assert GoodSchedule(Next(s, Settle(claim, failure, now)), j);
    }
  }

  lemma SettleKeepsClaim(s: State, claim: Claim, failure: Option<string>, now: real, c: Claim)
    requires Good(s) && Settles(s, claim) && c in Next(s, Settle(claim, failure, now)).open
    ensures GoodClaim(Next(s, Settle(claim, failure, now)), c)
  {
    assert GoodClaim(s, claim) && GoodClaim(s, c);
  }

  lemma SettleKeepsGood(s: State, claim: Claim, failure: Option<string>, now: real)
    requires Good(s) && Settles(s, claim)
    ensures Good(Next(s, Settle(claim, failure, now)))
    ensures s.schedules[claim.schedule].pending == claim.run
  {
    var u := Next(s, Settle(claim, failure, now));
    forall j | 0 <= j < |s.schedules|
      ensures GoodSchedule(u, j)
    {
      SettleKeepsSchedule(s, claim, failure, now, j);
    }
    forall c | c in u.open
      ensures GoodClaim(u, c)
    {
      SettleKeepsClaim(s, claim, failure, now, c);
    }
  }

  lemma DueKeepsGood(s: State, now: real)
    requires Good(s)
    ensures Good(Next(s, Due(now)))
  {
    var u := Next(s, Due(now));
    forall j | 0 <= j < |s.schedules|
      ensures GoodSchedule(u, j)
    {
      assert GoodSchedule(s, j);
    }
    forall c | c in u.open
      ensures GoodClaim(u, c)
    {
      ClaimsOfTheDue(s.schedules, now, c);
      assert c in s.open ==> GoodClaim(s, c);
    }
  }

  lemma NextKeepsGood(s: State, step: Step)
    requires Good(s)
    ensures Good(Next(s, step))
  {
    match step
    case Settle(claim, failure, now) =>
      if Settles(s, claim) {
        SettleKeepsGood(s, claim, failure, now);
      }
    case Due(now) =>
      DueKeepsGood(s, now);
    case Create(nextAt, interval, now) =>
      var u := Next(s, step);
      NoRunsOf(s.records, |s.schedules|);
      assert forall j | 0 <= j < |s.schedules| :: GoodSchedule(s, j) ==> GoodSchedule(u, j);
      assert forall c | c in s.open :: GoodClaim(s, c) ==> GoodClaim(u, c);
    case Control(i, action) =>
      var u := Next(s, step);
      assert forall j | 0 <= j < |s.schedules| :: GoodSchedule(s, j) ==> GoodSchedule(u, j);
      assert forall c | c in s.open :: GoodClaim(s, c) ==> GoodClaim(u, c);
  }

  /** In every run the recorded runs of a schedule are its occurrences 1, 2, 3, ... without gap or repetition. */
  lemma {:induction false} RunKeepsGood(run: seq<Step>)
    ensures Good(After(run))
  {
    if run != [] {
      RunKeepsGood(run[..|run| - 1]);
      NextKeepsGood(After(run[..|run| - 1]), run[|run| - 1]);
    }
  }

  // Settlements

  /** A successful settlement records the run that its claim named, as the next occurrence of the schedule. */
  lemma SettlementRecordsItsClaim(run: seq<Step>, claim: Claim, now: real)
    requires Settles(After(run), claim)
    ensures
      var s, i := After(run), claim.schedule;
      var u, n := After(run + [Settle(claim, None, now)]), s.schedules[i].occurrence + 1;
      && u.records == s.records + [Record(i, claim.run, false)] && claim.run == Some(RunId(i, n))
      && u.schedules[i].occurrence == n && u.schedules[i].last == claim.run
  {
    RunKeepsGood(run);
    assert (run + [Settle(claim, None, now)])[..|run|] == run;
    SettleKeepsGood(After(run), claim, None, now);
    assert GoodClaim(After(run), claim);
  }

  lemma NextRaisesEpochs(s: State, step: Step, i: nat)
    requires i < |s.schedules|
    ensures i < |Next(s, step).schedules| && s.schedules[i].epoch <= Next(s, step).schedules[i].epoch
  {
    match step
    case Create(_, _, _) =>
    case Control(_, _) =>
    case Due(_) =>
    case Settle(_, _, _) =>
  }

  /** Epochs never go back. */
  lemma {:induction false} EpochGrows(run: seq<Step>, k: nat, i: nat)
    requires k <= |run| && i < |After(run[..k]).schedules|
    ensures i < |After(run).schedules| && After(run[..k]).schedules[i].epoch <= After(run).schedules[i].epoch
    decreases |run|
  {
    if k == |run| {
      assert run[..k] == run;
    } else {
      var before := run[..|run| - 1];
      assert before[..k] == run[..k];
      EpochGrows(before, k, i);
      NextRaisesEpochs(After(before), run[|run| - 1], i);
    }
  }

  lemma NextKeepsClosed(s: State, step: Step, claim: Claim)
    requires claim.schedule < |s.schedules| && claim.epoch <= s.schedules[claim.schedule].epoch && claim !in s.open
    ensures claim !in Next(s, step).open
  {
    if step.Due? {
      ClaimsOfTheDue(s.schedules, step.now, claim);
    }
  }

  /** Claims that are opened later carry a higher epoch. */
  lemma {:induction false} ClosedStaysClosed(run: seq<Step>, k: nat, claim: Claim)
    requires k <= |run| && claim.schedule < |After(run[..k]).schedules|
    requires claim.epoch <= After(run[..k]).schedules[claim.schedule].epoch && claim !in After(run[..k]).open
    ensures claim !in After(run).open
    decreases |run|
  {
    if k == |run| {
      assert run[..k] == run;
    } else {
      var before, step := run[..|run| - 1], run[|run| - 1];
      assert before[..k] == run[..k];
      ClosedStaysClosed(before, k, claim);
      EpochGrows(before, k, claim.schedule);
      NextKeepsClosed(After(before), step, claim);
    }
  }

  /** The step takes the schedule away from every claim made before it. */
  predicate Supersedes(s: State, step: Step, i: nat) {
    i < |s.schedules| && ((step.Due? && IsDue(s.schedules[i], step.now)) || (step.Control? && step.i == i))
  }

  lemma SupersededFallsBehind(s: State, step: Step, claim: Claim)
    requires Good(s) && claim in s.open && Supersedes(s, step, claim.schedule)
    ensures claim.schedule < |Next(s, step).schedules|
    ensures claim.epoch < Next(s, step).schedules[claim.schedule].epoch
  {
    assert GoodClaim(s, claim);
  }

  lemma AfterPrefix(run: seq<Step>, k: nat)
    requires k < |run|
    ensures After(run[..k + 1]) == Next(After(run[..k]), run[k])
  {
    assert run[..k + 1][..k] == run[..k];
  }

  /** A claim superseded by a later `due` or by any control action never settles. */
  lemma SupersededNeverSettles(run: seq<Step>, k: nat, claim: Claim)
    requires k < |run| && claim in After(run[..k]).open && Supersedes(After(run[..k]), run[k], claim.schedule)
    ensures !Settles(After(run), claim)
  {
    RunKeepsGood(run[..k]);
    SupersededFallsBehind(After(run[..k]), run[k], claim);
    AfterPrefix(run, k);
    EpochGrows(run, k + 1, claim.schedule);
  }

  /** No claim settles twice. */
  lemma SettledOnce(run: seq<Step>, k: nat, claim: Claim)
    requires k < |run| && run[k].Settle? && run[k].claim == claim && Settles(After(run[..k]), claim)
    ensures !Settles(After(run), claim)
  {
    AfterPrefix(run, k);
    ClosedStaysClosed(run, k + 1, claim);
  }

  lemma {:induction false} OccurrencesLength(i: nat, n: nat)
    ensures |Occurrences(i, n)| == n
  {
    if n > 0 {
      OccurrencesLength(i, n - 1);
    }
  }

  /** Claims of a schedule name the same run exactly when no dispatch succeeded in between. */
  lemma RetriesShareTheRun(early: seq<Step>, late: seq<Step>, i: nat)
    requires i < |After(early).schedules| && i < |After(late).schedules|
    ensures
      ClaimOf(i, After(early).schedules[i]).run == ClaimOf(i, After(late).schedules[i]).run
      <==> RunsOf(After(early).records, i) == RunsOf(After(late).records, i)
  {
    RunKeepsGood(early);
    RunKeepsGood(late);
    assert GoodSchedule(After(early), i) && GoodSchedule(After(late), i);
    OccurrencesLength(i, After(early).schedules[i].occurrence);
    OccurrencesLength(i, After(late).schedules[i].occurrence);
  }

  // How often a one-shot schedule runs

  function Resumes(run: seq<Step>, i: nat): nat {
    if run == [] then 0
    else
      var last := run[|run| - 1];
      Resumes(run[..|run| - 1], i) + if last == Control(i, Resume) then 1 else 0
  }

  predicate OneShot(s: Schedule) {
    s.interval.None?
  }

  function Used(s: Schedule): nat {
    s.occurrence + if s.status.Active? then 1 else 0
  }

  lemma OneShotStep(s: State, step: Step, i: nat)
    requires i < |Next(s, step).schedules| && OneShot(Next(s, step).schedules[i])
    ensures
      var after := Used(Next(s, step).schedules[i]);
      if i < |s.schedules| then
        OneShot(s.schedules[i]) && after <= Used(s.schedules[i]) + if step == Control(i, Resume) then 1 else 0
      else
        after == 1
  {
    match step
    case Create(_, _, _) =>
    case Control(_, _) =>
    case Due(_) =>
    case Settle(_, _, _) =>
  }

  /** A schedule without an interval runs at most once, and once more for every time it is resumed. */
  lemma {:induction false} OneShotRuns(run: seq<Step>, i: nat)
    requires i < |After(run).schedules| && OneShot(After(run).schedules[i])
    ensures Used(After(run).schedules[i]) <= 1 + Resumes(run, i)
  {
    if run != [] {
      var before, last := run[..|run| - 1], run[|run| - 1];
      OneShotStep(After(before), last, i);
      if i < |After(before).schedules| {
        OneShotRuns(before, i);
      }
    }
  }

  lemma AfterOneMore(run: seq<Step>, step: Step)
    ensures After(run + [step]) == Next(After(run), step)
  {
    assert (run + [step])[..|run|] == run;
  }

  /** A due schedule that is alone can be claimed and dispatched. */
  lemma DispatchOnce(run: seq<Step>, s: Schedule, now: real) returns (longer: seq<Step>)
    requires After(run).schedules == [s] && IsDue(s, now)
    ensures After(longer).schedules == [Settled(Claimed(0, s, now), "", now)]
  {
    var claim := ClaimOf(0, s);
    AfterOneMore(run, Due(now));
    ClaimsOfTheDue([s], now, claim);
    assert Settles(After(run + [Due(now)]), claim);
    longer := run + [Due(now)] + [Settle(claim, None, now)];
    AfterOneMore(run + [Due(now)], Settle(claim, None, now));
  }

  /** Resuming does not ask whether the schedule is completed: a one-shot schedule can run twice. */
  lemma ResumedOneShotRunsTwice()
    ensures exists run: seq<Step> ::
      |After(run).schedules| == 1 && OneShot(After(run).schedules[0]) && After(run).schedules[0].occurrence == 2
  {
    var created, s := [Create(Some(1.0), None, 0.0)], Created(Some(1.0), None, 0.0);
    AfterOneMore([], created[0]);
    var once := DispatchOnce(created, s, 1.0);
    var completed := After(once).schedules[0];
    AfterOneMore(once, Control(0, Resume));
    var twice := DispatchOnce(once + [Control(0, Resume)], Controlled(completed, Resume), 1.0);
    assert After(twice).schedules[0].occurrence == 2;
  }

  // Two places where more is needed than the store checks

  /** Step `k` settles a claim for a submission that failed with an empty text. */
  predicate FailsSilently(run: seq<Step>, k: nat)
    requires k < |run|
  {
    run[k].Settle? && run[k].failure == Some("") && Settles(After(run[..k]), run[k].claim)
  }

  ghost predicate OnlySuccesses(records: seq<Record>) {
    forall r | r in records :: !r.failed
  }

  /** A run is recorded only if submitting it did not fail, exactly when no submission fails with an empty text. */
  lemma {:induction false} RecordsAreTrueIffErrorsHaveTexts(run: seq<Step>)
    ensures OnlySuccesses(After(run).records) <==> forall k | 0 <= k < |run| :: !FailsSilently(run, k)
  {
    if run != [] {
      var last := |run| - 1;
      var init := run[..last];
      RecordsAreTrueIffErrorsHaveTexts(init);
      forall k | 0 <= k < last ensures FailsSilently(init, k) <==> FailsSilently(run, k) {
        assert init[..k] == run[..k];
      }
      NextRecords(After(init), run[last]);
      assert FailsSilently(run, last) <==> SettlesSilently(After(init), run[last]);
    }
  }

  predicate SettlesSilently(s: State, step: Step) {
    step.Settle? && step.failure == Some("") && Settles(s, step.claim)
  }

  lemma NextRecords(s: State, step: Step)
    ensures OnlySuccesses(Next(s, step).records) <==> OnlySuccesses(s.records) && !SettlesSilently(s, step)
  {
    var after := Next(s, step).records;
    if after != s.records {
      assert after[|s.records|] in after;
      assert forall r | r in s.records :: r in after;
    }
  }

  /**
   In every reachable state: a submission that fails is tried again under the same run, and nothing is recorded,
   if and only if its error has a text.
   */
  lemma FailureIsRetriedIffItHasAText(run: seq<Step>, claim: Claim, text: string, now: real, later: real)
    requires Settles(After(run), claim) && 0.0 <= now && now + RETRY_SECONDS <= later
    ensures
      var s, u := After(run), After(run + [Settle(claim, Some(text), now)]);
      var retry := ClaimOf(claim.schedule, u.schedules[claim.schedule]);
      && ((retry in Claims(u.schedules, later) && retry.run == claim.run) <==> text != "")
      && (u.records == s.records <==> text != "")
  {
    AfterOneMore(run, Settle(claim, Some(text), now));
    RunKeepsGood(run);
    assert GoodClaim(After(run), claim);
    var u := After(run + [Settle(claim, Some(text), now)]);
    ClaimsOfTheDue(u.schedules, later, ClaimOf(claim.schedule, u.schedules[claim.schedule]));
  }

  /** Settling leaves the epoch as it is: settling a recurring schedule twice would lose the recorded run. */
  lemma SettlingTwiceLosesTheRun(s: Schedule, epoch: nat, now: real, later: real)
    requires Current(s, epoch) && s.interval.Some? && s.interval.value != 0
    ensures Current(Settled(s, "", now), epoch)
    ensures Settled(Settled(s, "", now), "", later).last == None
  {
  }
}
