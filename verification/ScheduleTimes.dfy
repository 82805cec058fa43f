/** When a schedule (src/lightworker/schedules.py) comes due: after its creation, a claim, a settlement, an action. */
module ScheduleTimes {
  import opened Prelude
  import opened Schedules

  /** A call of `due` at this time claims schedule `i`. */
  ghost predicate ComesDue(run: seq<Step>, i: nat, later: real) {
    exists c | c in Claims(After(run).schedules, later) :: c.schedule == i
  }

  lemma DueWhen(run: seq<Step>, i: nat, later: real)
    ensures ComesDue(run, i, later) <==> i < |After(run).schedules| && IsDue(After(run).schedules[i], later)
  {
    var schedules := After(run).schedules;
    if i < |schedules| {
      ClaimsOfTheDue(schedules, later, ClaimOf(i, schedules[i]));
    }
    if c :| c in Claims(schedules, later) && c.schedule == i {
      ClaimsOfTheDue(schedules, later, c);
    }
  }

  /** A new schedule comes due at the time it was given, or at once. */
  lemma NewScheduleComesDue(run: seq<Step>, nextAt: Option<real>, interval: Option<nat>, now: real, later: real)
    requires (interval.Some? ==> 60 <= interval.value) && 0.0 <= later
    ensures ComesDue(run + [Create(nextAt, interval, now)], |After(run).schedules|, later)
       <==> (if nextAt.Some? && nextAt.value != 0.0 then nextAt.value else now) <= later
  {
    var n := |After(run).schedules|;
    AfterOneMore(run, Create(nextAt, interval, now));
    assert After(run + [Create(nextAt, interval, now)]).schedules[n] == Created(nextAt, interval, now);
    DueWhen(run + [Create(nextAt, interval, now)], n, later);
  }

  /** While a claim's lease runs the schedule is not claimed again; 60 seconds later it is, if nothing settles it. */
  lemma ClaimedScheduleIsLeased(run: seq<Step>, i: nat, now: real, later: real)
    requires ComesDue(run, i, now)
    ensures ComesDue(run + [Due(now)], i, later) <==> now + 60.0 <= later
  {
    DueWhen(run, i, now);
    AfterOneMore(run, Due(now));
    DueWhen(run + [Due(now)], i, later);
  }

  /**
   After a successful dispatch a recurring schedule comes due one interval later, and any other never again; after a
   failed one it comes due in 60 seconds.
   */
  lemma SettledScheduleComesDue(run: seq<Step>, claim: Claim, failure: Option<string>, now: real, later: real)
    requires Settles(After(run), claim) && 0.0 <= later
    ensures
      var interval := After(run).schedules[claim.schedule].interval;
      ComesDue(run + [Settle(claim, failure, now)], claim.schedule, later)
      <==> if failure.Some? && failure.value != "" then now + 60.0 <= later
           else interval.Some? && interval.value > 0 && now + interval.value as real <= later
  {
    AfterOneMore(run, Settle(claim, failure, now));
    DueWhen(run + [Settle(claim, failure, now)], claim.schedule, later);
  }

  /** A failure's text stays with the schedule, which keeps its run; a success clears both and records the run. */
  lemma SettlementIsRecorded(run: seq<Step>, claim: Claim, failure: Option<string>, now: real)
    requires Settles(After(run), claim)
    ensures claim.schedule < |After(run + [Settle(claim, failure, now)]).schedules|
    ensures
      var before, after := After(run).schedules[claim.schedule],
                           After(run + [Settle(claim, failure, now)]).schedules[claim.schedule];
      if failure.Some? && failure.value != "" then
        && after.error == failure && after.pending == before.pending && after.last == before.last
        && after.occurrence == before.occurrence && after.status == Status.Active
      else
        && after.error == None && after.pending == None && after.last == claim.run
        && after.occurrence == before.occurrence + 1
        && (after.status == Status.Active <==> before.interval.Some? && before.interval.value != 0)
  {
    AfterOneMore(run, Settle(claim, failure, now));
    RunKeepsGood(run);
    assert GoodClaim(After(run), claim);
  }

  /** One call of `due` claims the schedules in the order of their creation, each once. */
  lemma {:induction false} ClaimsComeInOrder(schedules: seq<Schedule>, now: real, i: nat, j: nat)
    requires i < j < |Claims(schedules, now)|
    ensures Claims(schedules, now)[i].schedule < Claims(schedules, now)[j].schedule < |schedules|
  {
    var last := |schedules| - 1;
    var before := Claims(schedules[..last], now);
    if j < |before| {
      ClaimsComeInOrder(schedules[..last], now, i, j);
    } else {
      assert before[i] in before;
      ClaimsOfTheDue(schedules[..last], now, before[i]);
    }
  }

  /** A paused or deleted schedule does not come due; a resumed one does when its time has come, lease or not. */
  lemma ControlledScheduleComesDue(run: seq<Step>, i: nat, action: Action, later: real)
    requires i < |After(run).schedules| && 0.0 <= later
    ensures ComesDue(run + [Control(i, action)], i, later)
       <==> action.Resume? && After(run).schedules[i].nextAt <= later
    ensures i < |After(run + [Control(i, action)]).schedules|
    ensures After(run + [Control(i, action)]).schedules[i].status
         == match action case Pause => Status.Paused case Resume => Status.Active case Delete => Status.Deleted
  {
    AfterOneMore(run, Control(i, action));
    DueWhen(run + [Control(i, action)], i, later);
  }

  /** The step claims, settles or controls schedule `i`. */
  predicate Touches(s: State, step: Step, i: nat) {
    match step
    case Create(_, _, _) => i == |s.schedules|
    case Control(j, _) => j == i
    case Due(now) => i < |s.schedules| && IsDue(s.schedules[i], now)
    case Settle(claim, _, _) => claim.schedule == i && Settles(s, claim)
  }

  lemma UntouchedIsUnchanged(s: State, step: Step, i: nat)
    requires !Touches(s, step, i)
    ensures i < |Next(s, step).schedules| <==> i < |s.schedules|
    ensures i < |s.schedules| ==> Next(s, step).schedules[i] == s.schedules[i]
  {
    match step
    case Create(_, _, _) =>
    case Control(_, _) =>
    case Due(_) =>
    case Settle(_, _, _) =>
  }

  /** No other step changes when it comes due. */
  lemma UntouchedScheduleStays(run: seq<Step>, step: Step, i: nat, later: real)
    requires !Touches(After(run), step, i)
    ensures ComesDue(run + [step], i, later) <==> ComesDue(run, i, later)
  {
    AfterOneMore(run, step);
    UntouchedIsUnchanged(After(run), step, i);
    DueWhen(run, i, later);
    DueWhen(run + [step], i, later);
  }
}
