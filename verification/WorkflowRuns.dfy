/**
 Any number of concurrent, crashing invocations of one workflow.

 Every invocation brings its own list of steps.  The first one's list is stored with the workflow, and a later
 one is let in when its list equals the stored list under Python's `==`.  That does not make the step ids equal:
 they are the texts of the id values, and 1 equals 1.0.
 */
module WorkflowRuns {
  import opened Prelude
  import opened StartLog
  import opened WorkflowLock

  /** Where an invocation stands; the number is the index of its current step. */
  datatype Phase =
    | Walking(i: nat)
    | Holding(i: nat)                      // "running" is persisted, the tool not yet started
    | Called(i: nat)
    | Publishing(i: nat)                   // the tool succeeded
    | Refusing(i: nat, releases: bool)     // the tool did not succeed
    | Gone

  datatype Invoker = Invoker(phase: Phase, local: Workflow, steps: seq<Step>)

  /** `fixed` is the list of steps stored with the workflow. */
  datatype State = State(fixed: Option<seq<Step>>, stored: Workflow, invokers: seq<Invoker>, log: Marks)

  const INITIAL := State(None, EMPTY, [], [])

  /** The lists that invocations bring, and Python's `==` on them. */
  datatype Callers = Callers(lists: set<seq<Step>>, same: (seq<Step>, seq<Step>) -> bool)

  /** What holds of every `==` on lists of JSON values: it is reflexive, and equal lists are equally long. */
  ghost predicate Sensible(c: Callers) {
    && (forall a | a in c.lists :: c.same(a, a))
    && (forall a, b | a in c.lists && b in c.lists && c.same(a, b) :: |a| == |b|)
  }

  /** `s` after invocation `k` has moved on. */
  function Moved(s: State, k: nat, phase: Phase, local: Workflow): State
    requires k < |s.invokers|
  {
    s.(invokers := s.invokers[k := Invoker(phase, local, s.invokers[k].steps)])
  }

  ghost predicate Enters(c: Callers, s: State, steps: seq<Step>, s': State) {
    && steps in c.lists && Acceptable(steps)
    && (s.fixed.None? || c.same(s.fixed.value, steps))
    && s' == s.(fixed := if s.fixed.None? then Some(steps) else s.fixed,
                invokers := s.invokers + [Invoker(Walking(0), s.stored, steps)])
  }

  ghost predicate Walks(s: State, k: nat, s': State)
    requires k < |s.invokers|
  {
    var inv := s.invokers[k];
    && inv.phase.Walking? && inv.phase.i < |inv.steps|
    && var i, id := inv.phase.i, inv.steps[inv.phase.i].id;
       if id in inv.local.completed then
         s' == Moved(s, k, Walking(i + 1), inv.local)
       else
         match ClaimOutcome(s.stored, id)
         case AlreadyCompleted => s' == Moved(s, k, Walking(i + 1), s.stored)
         case Refused => s' == Moved(s, k, Gone, inv.local)
         case Claimed =>
           var wf := Claiming(s.stored, id);
           s' == Moved(s, k, Holding(i), wf).(stored := wf)
  }

  ghost predicate Starts(s: State, k: nat, s': State)
    requires k < |s.invokers|
  {
    var inv := s.invokers[k];
    && inv.phase.Holding?
    && s' == Moved(s, k, Called(inv.phase.i), inv.local).(log := s.log + [Mark(inv.phase.i, Unheard)])
  }

  ghost predicate Hears(s: State, k: nat, reply: Reply, s': State)
    requires k < |s.invokers|
  {
    var inv := s.invokers[k];
    && inv.phase.Called? && inv.phase.i < |inv.steps| && s.log != []
    && var i := inv.phase.i;
       var log := SetLast(s.log, OutcomeOf(inv.steps[i], reply));
       match reply
       case Success(value) =>
         s' == Moved(s, k, Publishing(i), Completing(inv.local, inv.steps[i].id, value)).(log := log)
       case Raised => s' == Moved(s, k, Gone, inv.local).(log := log)
       case _ => s' == Moved(s, k, Refusing(i, Releases(inv.steps[i], reply)), inv.local).(log := log)
  }

  ghost predicate Writes(s: State, k: nat, s': State)
    requires k < |s.invokers|
  {
    var inv := s.invokers[k];
    match inv.phase
    case Publishing(i) => s' == Moved(s, k, Walking(i + 1), inv.local).(stored := inv.local)
    case Refusing(_, releases) =>
      s' == Moved(s, k, Gone, inv.local).(stored := if releases then s.stored.(running := None) else s.stored)
    case _ => false
  }

  ghost predicate Dies(s: State, k: nat, s': State)
    requires k < |s.invokers|
  {
    s' == Moved(s, k, Gone, s.invokers[k].local)
  }

  ghost predicate Acts(s: State, k: nat, s': State)
    requires k < |s.invokers|
  {
    || Walks(s, k, s')
    || Starts(s, k, s')
    || (exists reply :: Hears(s, k, reply, s'))
    || Writes(s, k, s')
    || Dies(s, k, s')
  }

  ghost predicate Next(c: Callers, s: State, s': State) {
    (exists steps :: Enters(c, s, steps, s')) || exists k | 0 <= k < |s.invokers| :: Acts(s, k, s')
  }

  ghost predicate IsRun(c: Callers, run: seq<State>) {
    && run != [] && run[0] == INITIAL
    && forall i | 0 <= i < |run| - 1 :: Next(c, run[i], run[i + 1])
  }

  ghost predicate AtStep(log: Marks, m: nat) {
    Orderly(log) && Started(log) == UpTo(m)
  }

  ghost predicate StoredOk(steps: seq<Step>, wf: Workflow) {
    var m := |wf.completed|;
    && m <= |steps| && wf.completed == Ids(steps, m)
    && wf.results.Keys == (set i | 0 <= i < m :: wf.completed[i])
    && (wf.running.Some? ==> m < |steps| && wf.running.value == steps[m].id)
  }

  predicate InLock(phase: Phase) {
    phase.Holding? || phase.Called? || phase.Publishing? || phase.Refusing?
  }

  /** Nothing that was stored is lost. */
  ghost predicate Extends(wf: Workflow, wf': Workflow) {
    && wf.completed <= wf'.completed
    && forall id | id in wf.results :: id in wf'.results && wf'.results[id] == wf.results[id]
  }

  ghost predicate InvokerOk(steps: seq<Step>, wf: Workflow, log: Marks, inv: Invoker) {
    var m := |wf.completed|;
    match inv.phase
    case Gone => true
    case Walking(i) =>
      && i <= m && |inv.local.completed| <= m <= |steps|
      && inv.local.completed == Ids(steps, |inv.local.completed|)
    case Holding(i) => i == m < |steps| && wf.running.Some? && inv.local == wf && AtStep(log, m)
    case Called(i) => i == m < |steps| && wf.running.Some? && inv.local == wf && JustStarted(log, m)
    case Publishing(i) =>
      && i == m < |steps| && wf.running.Some? && JustStarted(log, m)
      && exists value :: inv.local == Completing(wf, steps[m].id, value)
    case Refusing(i, releases) =>
      && i == m < |steps| && wf.running.Some?
      && if releases then AtStep(log, m) else JustStarted(log, m)
  }

  predicate SameIds(a: seq<Step>, b: seq<Step>) {
    |a| == |b| && forall i | 0 <= i < |a| :: a[i].id == b[i].id
  }

  predicate NonEmptyIds(steps: seq<Step>) {
    forall i | 0 <= i < |steps| :: steps[i].id != ""
  }

  /** Lists that are accepted for one workflow have the same ids, and none of these is empty. */
  ghost predicate Agreeing(c: Callers) {
    forall a: seq<Step>, b: seq<Step> |
      a in c.lists && b in c.lists && Acceptable(a) && Acceptable(b) && c.same(a, b) ::
      SameIds(a, b) && NonEmptyIds(a)
  }

  /** The invariant of a workflow whose stored list is `steps`. */
  ghost predicate Locking(steps: seq<Step>, s: State) {
    var m := |s.stored.completed|;
    && StoredOk(steps, s.stored)
    && (AtStep(s.log, m) || (s.stored.running.Some? && JustStarted(s.log, m)))
    && (forall k | 0 <= k < |s.invokers| ::
          SameIds(steps, s.invokers[k].steps) && InvokerOk(steps, s.stored, s.log, s.invokers[k]))
    && (forall k, l | 0 <= k < l < |s.invokers| :: !(InLock(s.invokers[k].phase) && InLock(s.invokers[l].phase)))
  }

  ghost predicate Invariant(c: Callers, s: State) {
    if s.fixed.None? then
      s == INITIAL
    else
      s.fixed.value in c.lists && Acceptable(s.fixed.value) && NonEmptyIds(s.fixed.value) && Locking(s.fixed.value, s)
  }

  lemma CompletedIds(steps: seq<Step>, m: nat, i: nat)
    requires Acceptable(steps) && m <= |steps| && i < |steps|
    ensures steps[i].id in Ids(steps, m) <==> i < m
  {
    if i < m {
      assert Ids(steps, m)[i] == steps[i].id;
    }
  }

  lemma EnterKeepsInvariant(c: Callers, s: State, steps: seq<Step>, s': State)
    requires Sensible(c) && Agreeing(c) && Invariant(c, s) && Enters(c, s, steps, s')
    ensures Invariant(c, s') && Extends(s.stored, s'.stored)
  {
  }

  /** Claiming the next step gives the lock to this invocation alone. */
  lemma ClaimKeepsInvariant(steps: seq<Step>, s: State, k: nat, s': State)
    requires Acceptable(steps) && Locking(steps, s) && k < |s.invokers| && s.invokers[k].phase.Walking?
    requires !Locked(s.stored) && NonEmptyIds(steps) && s.invokers[k].phase.i == |s.stored.completed| < |steps|
    requires var wf := s.stored.(running := Some(steps[s.invokers[k].phase.i].id));
             s' == Moved(s, k, Holding(s.invokers[k].phase.i), wf).(stored := wf)
    ensures Locking(steps, s') && Extends(s.stored, s'.stored)
  {
    assert s.stored.running.None?;
  }

  lemma MovingAloneKeepsInvariant(steps: seq<Step>, s: State, k: nat, phase: Phase, local: Workflow)
    requires Locking(steps, s) && k < |s.invokers| && !InLock(phase)
    requires InvokerOk(steps, s.stored, s.log, Invoker(phase, local, s.invokers[k].steps))
    ensures Locking(steps, Moved(s, k, phase, local))
  {
    var s' := Moved(s, k, phase, local);
    forall l | 0 <= l < |s'.invokers| && l != k ensures InvokerOk(steps, s'.stored, s'.log, s'.invokers[l]) {
      assert s'.invokers[l] == s.invokers[l] && InvokerOk(steps, s.stored, s.log, s.invokers[l]);
    }
  }

  lemma WalkKeepsInvariant(steps: seq<Step>, s: State, k: nat, s': State)
    requires Acceptable(steps) && NonEmptyIds(steps) && Locking(steps, s)
    requires k < |s.invokers| && Walks(s, k, s')
    ensures Locking(steps, s') && Extends(s.stored, s'.stored)
  {
    var inv := s.invokers[k];
    CompletedIds(steps, |inv.local.completed|, inv.phase.i);
    CompletedIds(steps, |s.stored.completed|, inv.phase.i);
    if inv.phase.i == |s.stored.completed| && !Locked(s.stored) {
      ClaimKeepsInvariant(steps, s, k, s');
    } else {
      MovingAloneKeepsInvariant(steps, s, k, s'.invokers[k].phase, s'.invokers[k].local);
    }
  }

  lemma StartKeepsInvariant(steps: seq<Step>, s: State, k: nat, s': State)
    requires Locking(steps, s) && k < |s.invokers| && Starts(s, k, s')
    ensures Locking(steps, s')
  {
    StartIsJustStarted(s.log, |s.stored.completed|);
  }

  lemma HearingKeepsInvariant(steps: seq<Step>, s: State, k: nat, reply: Reply, s': State)
    requires Locking(steps, s) && k < |s.invokers| && Hears(s, k, reply, s')
    ensures Locking(steps, s')
  {
    JustStartedFacts(s.log, |s.stored.completed|, OutcomeOf(s.invokers[k].steps[s.invokers[k].phase.i], reply));
    assert InvokerOk(steps, s'.stored, s'.log, s'.invokers[k]) by {
      if reply.Success? {
        assert s'.invokers[k].local == Completing(s.stored, steps[|s.stored.completed|].id, reply.value);
      }
    }
    forall l | 0 <= l < |s'.invokers| && l != k ensures InvokerOk(steps, s'.stored, s'.log, s'.invokers[l]) {
      assert s'.invokers[l] == s.invokers[l];
    }
  }

  lemma CompletingExtends(steps: seq<Step>, wf: Workflow, value: string)
    requires Acceptable(steps) && StoredOk(steps, wf) && |wf.completed| < |steps|
    ensures var wf' := Completing(wf, steps[|wf.completed|].id, value);
            StoredOk(steps, wf') && Extends(wf, wf')
  {
    var m := |wf.completed|;
    CompletedIds(steps, m, m);
    assert Ids(steps, m + 1) == Ids(steps, m) + [steps[m].id];
  }

  lemma WriteKeepsInvariant(steps: seq<Step>, s: State, k: nat, s': State)
    requires Acceptable(steps) && Locking(steps, s) && k < |s.invokers| && Writes(s, k, s')
    ensures Locking(steps, s') && Extends(s.stored, s'.stored)
  {
    var m := |s.stored.completed|;
    if s.invokers[k].phase.Publishing? {
      JustStartedFacts(s.log, m, Unheard);
      var value :| s.invokers[k].local == Completing(s.stored, steps[m].id, value);
      CompletingExtends(steps, s.stored, value);
    }
    forall l | 0 <= l < |s'.invokers| && l != k ensures InvokerOk(steps, s'.stored, s'.log, s'.invokers[l]) {
      assert s'.invokers[l] == s.invokers[l] && InvokerOk(steps, s.stored, s.log, s.invokers[l]);
      assert !InLock(s.invokers[l].phase);
    }
  }

  lemma ActKeepsLocking(steps: seq<Step>, s: State, k: nat, s': State)
    requires Acceptable(steps) && NonEmptyIds(steps) && Locking(steps, s) && k < |s.invokers| && Acts(s, k, s')
    ensures Locking(steps, s') && Extends(s.stored, s'.stored) && s'.fixed == s.fixed
  {
    if Walks(s, k, s') {
      WalkKeepsInvariant(steps, s, k, s');
    } else if Starts(s, k, s') {
      StartKeepsInvariant(steps, s, k, s');
    } else if Writes(s, k, s') {
      WriteKeepsInvariant(steps, s, k, s');
    } else if !Dies(s, k, s') {
      var reply :| Hears(s, k, reply, s');
      HearingKeepsInvariant(steps, s, k, reply, s');
    }
  }

  lemma NextKeepsInvariant(c: Callers, s: State, s': State)
    requires Sensible(c) && Agreeing(c) && Invariant(c, s) && Next(c, s, s')
    ensures Invariant(c, s') && Extends(s.stored, s'.stored)
  {
    if steps :| Enters(c, s, steps, s') {
      EnterKeepsInvariant(c, s, steps, s');
    } else {
      var k :| 0 <= k < |s.invokers| && Acts(s, k, s');
      ActKeepsLocking(s.fixed.value, s, k, s');
    }
  }

  lemma {:induction false} RunKeepsInvariant(c: Callers, run: seq<State>, i: nat)
    requires Sensible(c) && Agreeing(c) && IsRun(c, run) && i < |run|
    ensures Invariant(c, run[i])
  {
    if i > 0 {
      RunKeepsInvariant(c, run, i - 1);
      NextKeepsInvariant(c, run[i - 1], run[i]);
    }
  }

  /**
   Lock safety.  At every point of every run the completed steps are the first ones, the results are
   theirs, the marker is empty or the next step, and of two starts of the same step the earlier one
   was handed back: it asked for approval, or it failed and its tool only reads.
   */
  lemma LockSafety(c: Callers, run: seq<State>, i: nat)
    requires Sensible(c) && Agreeing(c) && IsRun(c, run) && i < |run|
    ensures run[i].fixed.Some? ==> StoredOk(run[i].fixed.value, run[i].stored)
    ensures NoRepeat(run[i].log)
  {
    RunKeepsInvariant(c, run, i);
    var log, m := run[i].log, |run[i].stored.completed|;
    if JustStarted(log, m) {
      JustStartedFacts(log, m, Unheard);
    }
    OrderlyMeansNoRepeat(log);
  }

  /** A success of the step at position `i` with this value was heard. */
  ghost predicate HeardAt(log: Marks, i: nat, value: string) {
    exists t | 0 <= t < |log| :: log[t] == Mark(i, Succeeded(value))
  }

  /** Invocation `k` is about to publish the value that was heard last. */
  ghost predicate PublishesHeard(steps: seq<Step>, s: State, k: nat)
    requires k < |s.invokers|
  {
    var m := |s.stored.completed|;
    && m < |steps| && s.log != [] && s.log[|s.log| - 1].position == m && s.log[|s.log| - 1].outcome.Succeeded?
    && s.invokers[k].local.results == s.stored.results[steps[m].id := s.log[|s.log| - 1].outcome.value]
  }

  /** Every stored result is a value that was heard for its step. */
  ghost predicate Backed(steps: seq<Step>, wf: Workflow, log: Marks) {
    && |wf.completed| <= |steps|
    && forall i | 0 <= i < |wf.completed| ::
         steps[i].id in wf.results && HeardAt(log, i, wf.results[steps[i].id])
  }

  ghost predicate BackedState(steps: seq<Step>, s: State) {
    && Backed(steps, s.stored, s.log)
    && forall k | 0 <= k < |s.invokers| && s.invokers[k].phase.Publishing? :: PublishesHeard(steps, s, k)
  }

  lemma HearingKeepsBacked(steps: seq<Step>, wf: Workflow, log: Marks, outcome: Outcome<string>)
    requires Backed(steps, wf, log) && log != [] && log[|log| - 1].position == |wf.completed|
    ensures Backed(steps, wf, SetLast(log, outcome))
  {
    forall i | 0 <= i < |wf.completed| ensures HeardAt(SetLast(log, outcome), i, wf.results[steps[i].id]) {
      var t :| 0 <= t < |log| && log[t] == Mark(i, Succeeded(wf.results[steps[i].id]));
      assert SetLast(log, outcome)[t] == log[t];
    }
  }

  lemma StartingKeepsBacked(steps: seq<Step>, wf: Workflow, log: Marks, mark: Mark<string>)
    requires Backed(steps, wf, log)
    ensures Backed(steps, wf, log + [mark])
  {
    forall i | 0 <= i < |wf.completed| ensures HeardAt(log + [mark], i, wf.results[steps[i].id]) {
      var t :| 0 <= t < |log| && log[t] == Mark(i, Succeeded(wf.results[steps[i].id]));
      assert (log + [mark])[t] == log[t];
    }
  }

  lemma PublishingKeepsBacked(steps: seq<Step>, s: State, k: nat)
    requires Acceptable(steps) && Locking(steps, s) && k < |s.invokers| && s.invokers[k].phase.Publishing?
    requires Backed(steps, s.stored, s.log) && PublishesHeard(steps, s, k)
    ensures Backed(steps, s.invokers[k].local, s.log)
  {
    var m, wf := |s.stored.completed|, s.invokers[k].local;
    var last := s.log[|s.log| - 1];
    assert InvokerOk(steps, s.stored, s.log, s.invokers[k]);
    assert |wf.completed| == m + 1;
    forall i | 0 <= i < m + 1 ensures steps[i].id in wf.results && HeardAt(s.log, i, wf.results[steps[i].id]) {
      if i == m {
        assert last == Mark(m, Succeeded(wf.results[steps[m].id]));
      } else {
        assert steps[i].id != steps[m].id;
      }
    }
  }

  /** The invocation in the lock is the only one that may publish. */
  lemma NoOtherPublishes(steps: seq<Step>, s: State, k: nat, s': State)
    requires Locking(steps, s) && k < |s.invokers| == |s'.invokers| && InLock(s.invokers[k].phase)
    requires forall l | 0 <= l < |s.invokers| && l != k :: s'.invokers[l] == s.invokers[l]
    ensures forall l | 0 <= l < |s'.invokers| && l != k :: !s'.invokers[l].phase.Publishing?
  {
    forall l | 0 <= l < |s'.invokers| && l != k ensures !s'.invokers[l].phase.Publishing? {
      assert !InLock(s.invokers[l].phase);
    }
  }

  lemma HearingKeepsBackedState(steps: seq<Step>, s: State, k: nat, reply: Reply, s': State)
    requires Locking(steps, s) && k < |s.invokers| && Hears(s, k, reply, s') && BackedState(steps, s)
    ensures BackedState(steps, s')
  {
    var i := s.invokers[k].phase.i;
    assert InvokerOk(steps, s.stored, s.log, s.invokers[k]);
    assert s.invokers[k].steps[i].id == steps[i].id;
    HearingKeepsBacked(steps, s.stored, s.log, OutcomeOf(s.invokers[k].steps[i], reply));
    NoOtherPublishes(steps, s, k, s');
  }

  lemma WritingKeepsBackedState(steps: seq<Step>, s: State, k: nat, s': State)
    requires Acceptable(steps) && Locking(steps, s) && k < |s.invokers| && Writes(s, k, s') && BackedState(steps, s)
    ensures BackedState(steps, s')
  {
    if s.invokers[k].phase.Publishing? {
      PublishingKeepsBacked(steps, s, k);
    }
    NoOtherPublishes(steps, s, k, s');
  }

  lemma StartingKeepsBackedState(steps: seq<Step>, s: State, k: nat, s': State)
    requires Locking(steps, s) && k < |s.invokers| && Starts(s, k, s') && BackedState(steps, s)
    ensures BackedState(steps, s')
  {
    StartingKeepsBacked(steps, s.stored, s.log, Mark(s.invokers[k].phase.i, Unheard));
    NoOtherPublishes(steps, s, k, s');
  }

  /** The other steps leave the results, the log and what is about to be published as they are. */
  lemma WalkingKeepsBackedState(steps: seq<Step>, s: State, k: nat, s': State)
    requires k < |s.invokers| && (Walks(s, k, s') || Dies(s, k, s')) && BackedState(steps, s)
    ensures BackedState(steps, s')
  {
    assert s'.log == s.log && s'.stored.results == s.stored.results && s'.stored.completed == s.stored.completed;
    forall l | 0 <= l < |s'.invokers| && s'.invokers[l].phase.Publishing? ensures PublishesHeard(steps, s', l) {
      assert l != k && s'.invokers[l] == s.invokers[l] && PublishesHeard(steps, s, l);
    }
  }

  lemma ActKeepsBackedState(steps: seq<Step>, s: State, k: nat, s': State)
    requires Acceptable(steps) && Locking(steps, s) && k < |s.invokers| && Acts(s, k, s') && BackedState(steps, s)
    ensures BackedState(steps, s')
  {
    if Walks(s, k, s') || Dies(s, k, s') {
      WalkingKeepsBackedState(steps, s, k, s');
    } else if Starts(s, k, s') {
      StartingKeepsBackedState(steps, s, k, s');
    } else if Writes(s, k, s') {
      WritingKeepsBackedState(steps, s, k, s');
    } else {
      var reply :| Hears(s, k, reply, s');
      HearingKeepsBackedState(steps, s, k, reply, s');
    }
  }

  lemma NextKeepsBacked(c: Callers, s: State, s': State)
    requires Sensible(c) && Agreeing(c) && Invariant(c, s) && Next(c, s, s')
    requires s.fixed.Some? ==> BackedState(s.fixed.value, s)
    ensures s'.fixed.Some? ==> BackedState(s'.fixed.value, s')
  {
    if steps :| Enters(c, s, steps, s') {
      if s.fixed.Some? {
        assert forall k | 0 <= k < |s.invokers| :: s'.invokers[k] == s.invokers[k];
        assert forall k | 0 <= k < |s.invokers| && s.invokers[k].phase.Publishing? ::
            PublishesHeard(s.fixed.value, s, k) ==> PublishesHeard(s.fixed.value, s', k);
      }
    } else {
      var k :| 0 <= k < |s.invokers| && Acts(s, k, s');
      ActKeepsLocking(s.fixed.value, s, k, s');
      ActKeepsBackedState(s.fixed.value, s, k, s');
    }
  }

  lemma {:induction false} RunKeepsBacked(c: Callers, run: seq<State>, i: nat)
    requires Sensible(c) && Agreeing(c) && IsRun(c, run) && i < |run|
    ensures run[i].fixed.Some? ==> BackedState(run[i].fixed.value, run[i])
  {
    if i > 0 {
      RunKeepsBacked(c, run, i - 1);
      RunKeepsInvariant(c, run, i - 1);
      NextKeepsBacked(c, run[i - 1], run[i]);
    }
  }

  /** The result stored for a step is the value of its one success that was heard, in every run. */
  lemma ResultsAreHeard(c: Callers, run: seq<State>, n: nat, i: nat)
    requires Sensible(c) && Agreeing(c) && IsRun(c, run) && n < |run|
    requires run[n].fixed.Some? && i < |run[n].stored.completed|
    ensures i < |run[n].fixed.value| && run[n].fixed.value[i].id in run[n].stored.results
    ensures var value := run[n].stored.results[run[n].fixed.value[i].id];
            && (exists t | 0 <= t < |run[n].log| :: run[n].log[t] == Mark(i, Succeeded(value)))
            && forall t | 0 <= t < |run[n].log| && run[n].log[t].position == i && run[n].log[t].outcome.Succeeded? ::
                 run[n].log[t].outcome.value == value
  {
    RunKeepsBacked(c, run, n);
    LockSafety(c, run, n);
    var steps, log := run[n].fixed.value, run[n].log;
    var value := run[n].stored.results[steps[i].id];
    assert HeardAt(log, i, value);
    var t :| 0 <= t < |log| && log[t] == Mark(i, Succeeded(value));
    forall u | 0 <= u < |log| && log[u].position == i && log[u].outcome.Succeeded?
      ensures log[u].outcome.value == value
    {
      assert t < u ==> log[t].Cleared();
      assert u < t ==> log[u].Cleared();
    }
  }

  /** In no list does the tool of the step at position `p` only read. */
  ghost predicate Acting(c: Callers, p: nat) {
    forall a: seq<Step> | a in c.lists && p < |a| :: !a[p].readOnly
  }

  ghost predicate NeverJustReads(c: Callers, s: State, p: nat) {
    && (forall k | 0 <= k < |s.invokers| :: s.invokers[k].steps in c.lists)
    && (forall t | 0 <= t < |s.log| && s.log[t].position == p :: !s.log[t].outcome.FailedReading?)
  }

  lemma HearingNeverJustReads(c: Callers, s: State, k: nat, reply: Reply, s': State, p: nat)
    requires s.fixed.Some? && Locking(s.fixed.value, s) && k < |s.invokers| && Hears(s, k, reply, s')
    requires Acting(c, p) && NeverJustReads(c, s, p)
    ensures NeverJustReads(c, s', p)
  {
    var steps, i := s.invokers[k].steps, s.invokers[k].phase.i;
    assert s.log[|s.log| - 1].position == i;
    assert s'.log == SetLast(s.log, OutcomeOf(steps[i], reply));
    assert forall l | 0 <= l < |s'.invokers| :: s'.invokers[l].steps == s.invokers[l].steps;
  }

  lemma DeafNeverJustReads(c: Callers, s: State, k: nat, s': State, p: nat)
    requires k < |s.invokers| && NeverJustReads(c, s, p)
    requires Walks(s, k, s') || Starts(s, k, s') || Writes(s, k, s') || Dies(s, k, s')
    ensures NeverJustReads(c, s', p)
  {
    assert s'.invokers[k].steps == s.invokers[k].steps;
    assert forall l | 0 <= l < |s.invokers| && l != k :: s'.invokers[l] == s.invokers[l];
    if Starts(s, k, s') {
      assert s'.log == s.log + [Mark(s.invokers[k].phase.i, Unheard)];
    } else {
      assert s'.log == s.log;
    }
  }

  lemma ActNeverJustReads(c: Callers, s: State, k: nat, s': State, p: nat)
    requires s.fixed.Some? && Locking(s.fixed.value, s) && k < |s.invokers| && Acts(s, k, s')
    requires Acting(c, p) && NeverJustReads(c, s, p)
    ensures NeverJustReads(c, s', p)
  {
    if Walks(s, k, s') || Starts(s, k, s') || Writes(s, k, s') || Dies(s, k, s') {
      DeafNeverJustReads(c, s, k, s', p);
    } else {
      var reply :| Hears(s, k, reply, s');
      HearingNeverJustReads(c, s, k, reply, s', p);
    }
  }

  lemma NextNeverJustReads(c: Callers, s: State, s': State, p: nat)
    requires Invariant(c, s) && Next(c, s, s') && Acting(c, p) && NeverJustReads(c, s, p)
    ensures NeverJustReads(c, s', p)
  {
    if steps :| Enters(c, s, steps, s') {
    } else {
      var k :| 0 <= k < |s.invokers| && Acts(s, k, s');
      ActNeverJustReads(c, s, k, s', p);
    }
  }

  lemma {:induction false} RunNeverJustReads(c: Callers, run: seq<State>, i: nat, p: nat)
    requires Sensible(c) && Agreeing(c) && IsRun(c, run) && i < |run| && Acting(c, p)
    ensures NeverJustReads(c, run[i], p)
  {
    if i > 0 {
      RunNeverJustReads(c, run, i - 1, p);
      RunKeepsInvariant(c, run, i - 1);
      NextNeverJustReads(c, run[i - 1], run[i], p);
    }
  }

  /** A step whose tool does not only read is started again only after an approval was asked for. */
  lemma RepeatNeedsApproval(c: Callers, run: seq<State>, i: nat, t: nat, u: nat)
    requires Sensible(c) && Agreeing(c) && IsRun(c, run) && i < |run|
    requires t < u < |run[i].log| && run[i].log[t].position == run[i].log[u].position
    requires Acting(c, run[i].log[t].position)
    ensures run[i].log[t].outcome == NeedsApproval
  {
    LockSafety(c, run, i);
    RunNeverJustReads(c, run, i, run[i].log[t].position);
  }

  lemma StepLosesNothing(c: Callers, run: seq<State>, i: nat)
    requires Sensible(c) && Agreeing(c) && IsRun(c, run) && i < |run| - 1
    ensures Extends(run[i].stored, run[i + 1].stored)
  {
    RunKeepsInvariant(c, run, i);
    NextKeepsInvariant(c, run[i], run[i + 1]);
  }

  /** No update is lost: completed steps and their results stay. */
  lemma {:induction false} NoLostUpdate(c: Callers, run: seq<State>, i: nat, j: nat)
    requires Sensible(c) && Agreeing(c) && IsRun(c, run) && i <= j < |run|
    ensures Extends(run[i].stored, run[j].stored)
    decreases j
  {
    if i < j {
      NoLostUpdate(c, run, i, j - 1);
      StepLosesNothing(c, run, j - 1);
    }
  }

  // ---------- Runs in which the marker does not lock ----------

  lemma RunContinues(c: Callers, run: seq<State>, s: State)
    requires IsRun(c, run) && Next(c, run[|run| - 1], s)
    ensures IsRun(c, run + [s])
  {
    var run' := run + [s];
    forall i | 0 <= i < |run'| - 1 ensures Next(c, run'[i], run'[i + 1]) {
      assert i < |run| - 1 ==> run'[i] == run[i] && run'[i + 1] == run[i + 1];
    }
  }

  lemma RunExtends(c: Callers, run: seq<State>, k: nat, s: State)
    requires IsRun(c, run) && k < |run[|run| - 1].invokers| && Acts(run[|run| - 1], k, s)
    ensures IsRun(c, run + [s])
  {
    RunContinues(c, run, s);
  }

  /** One invocation has the first `m` steps behind it, and nothing else has happened. */
  ghost predicate AloneAt(steps: seq<Step>, m: nat, s: State)
    requires m <= |steps|
  {
    && s.fixed == Some(steps)
    && s.stored.completed == Ids(steps, m) && !Locked(s.stored)
    && s.invokers == [Invoker(Walking(m), s.stored, steps)]
    && |s.log| == m && forall i | 0 <= i < m :: s.log[i] == Mark(i, Succeeded(""))
  }

  /** What a turn of an invocation leaves behind when nobody interferes with it. */
  ghost predicate Turned(s: State, k: nat, reply: Reply, s': State)
    requires k < |s.invokers| && s.invokers[k].phase.Walking? && s.invokers[k].phase.i < |s.invokers[k].steps|
  {
    var inv, i, step := s.invokers[k], s.invokers[k].phase.i, s.invokers[k].steps[s.invokers[k].phase.i];
    && s'.fixed == s.fixed && s'.log == s.log + [Mark(i, OutcomeOf(step, reply))]
    && |s'.invokers| == |s.invokers| && (forall l | 0 <= l < |s.invokers| && l != k :: s'.invokers[l] == s.invokers[l])
    && s'.invokers[k].steps == inv.steps
    && if reply.Success? then
         && s'.stored == Workflow(s.stored.completed + [step.id], s.stored.results[step.id := reply.value], None)
         && s'.invokers[k].phase == Walking(i + 1) && s'.invokers[k].local == s'.stored
       else
         var released := reply.ApprovalRequired? || (reply.Failure? && step.readOnly);
         && s'.stored == s.stored.(running := if released then None else Some(step.id))
         && s'.invokers[k].phase == Gone
  }

  /** The invocation may begin its next step: it is not completed, and nothing is under way. */
  ghost predicate MayBegin(s: State, k: nat) {
    && k < |s.invokers|
    && var inv := s.invokers[k];
       && inv.phase.Walking? && inv.phase.i < |inv.steps| && inv.local == s.stored
       && inv.steps[inv.phase.i].id !in s.stored.completed && !Locked(s.stored)
  }

  /** Its tool has been started. */
  function Begun(s: State, k: nat): State
    requires k < |s.invokers| && s.invokers[k].phase.Walking? && s.invokers[k].phase.i < |s.invokers[k].steps|
  {
    var i, id := s.invokers[k].phase.i, s.invokers[k].steps[s.invokers[k].phase.i].id;
    var wf := s.stored.(running := Some(id));
    Moved(s, k, Called(i), wf).(stored := wf, log := s.log + [Mark(i, Unheard)])
  }

  lemma BeginningIsARun(c: Callers, before: seq<State>, k: nat)
    returns (run: seq<State>)
    requires IsRun(c, before) && MayBegin(before[|before| - 1], k)
    ensures IsRun(c, run) && before <= run && run[|run| - 1] == Begun(before[|before| - 1], k)
  {
    var s := before[|before| - 1];
    var i, id := s.invokers[k].phase.i, s.invokers[k].steps[s.invokers[k].phase.i].id;
    var wf := s.stored.(running := Some(id));
    var s1 := Moved(s, k, Holding(i), wf).(stored := wf);
    assert Walks(s, k, s1);
    RunExtends(c, before, k, s1);
    assert Starts(s1, k, Begun(s, k));
    RunExtends(c, before + [s1], k, Begun(s, k));
    run := before + [s1] + [Begun(s, k)];
  }

  /** A turn is a part of a run: it does in the store what `WorkflowTools.RunStep` does there. */
  lemma TurnIsARun(c: Callers, before: seq<State>, k: nat, reply: Reply) returns (run: seq<State>)
    requires IsRun(c, before) && MayBegin(before[|before| - 1], k)
    ensures IsRun(c, run) && before <= run && Turned(before[|before| - 1], k, reply, run[|run| - 1])
  {
    var s := before[|before| - 1];
    var inv: Invoker := s.invokers[k];
    var i, step := inv.phase.i, inv.steps[inv.phase.i];
    var wf, outcome := s.stored.(running := Some(step.id)), OutcomeOf(step, reply);
    var begun := BeginningIsARun(c, before, k);
    var s2 := Begun(s, k);
    assert SetLast(s2.log, outcome) == s.log + [Mark(i, outcome)];
    var heard := s2.(log := s.log + [Mark(i, outcome)]);
    match reply
    case Success(value) =>
      var done := Completing(wf, step.id, value);
      var s3, s4 := Moved(heard, k, Publishing(i), done), Moved(heard, k, Walking(i + 1), done).(stored := done);
      assert Hears(s2, k, reply, s3);
      RunExtends(c, begun, k, s3);
      assert Writes(s3, k, s4);
      RunExtends(c, begun + [s3], k, s4);
      run := begun + [s3] + [s4];
    case Raised =>
      var s3 := Moved(heard, k, Gone, wf);
      assert Hears(s2, k, reply, s3);
      RunExtends(c, begun, k, s3);
      run := begun + [s3];
    case _ =>
      var releases := Releases(step, reply);
      var s3 := Moved(heard, k, Refusing(i, releases), wf);
      var s4 := Moved(heard, k, Gone, wf).(stored := if releases then wf.(running := None) else wf);
      assert Hears(s2, k, reply, s3);
      RunExtends(c, begun, k, s3);
      assert Writes(s3, k, s4);
      RunExtends(c, begun + [s3], k, s4);
      run := begun + [s3] + [s4];
  }

  lemma AloneStep(c: Callers, steps: seq<Step>, j: nat, before: seq<State>) returns (run: seq<State>)
    requires Acceptable(steps) && j < |steps| && IsRun(c, before) && AloneAt(steps, j, before[|before| - 1])
    ensures IsRun(c, run) && AloneAt(steps, j + 1, run[|run| - 1])
  {
    CompletedIds(steps, j, j);
    run := TurnIsARun(c, before, 0, Success(""));
    assert Ids(steps, j + 1) == Ids(steps, j) + [steps[j].id];
  }

  lemma {:induction false} Alone(c: Callers, steps: seq<Step>, m: nat) returns (run: seq<State>)
    requires steps in c.lists && Acceptable(steps) && m <= |steps|
    ensures IsRun(c, run) && AloneAt(steps, m, run[|run| - 1])
  {
    if m == 0 {
      var s := State(Some(steps), EMPTY, [Invoker(Walking(0), EMPTY, steps)], []);
      run := [INITIAL, s];
      assert Enters(c, INITIAL, steps, s);
    } else {
      run := Alone(c, steps, m - 1);
      run := AloneStep(c, steps, m - 1, run);
    }
  }

  /** A second invocation has joined and found the first `j` of its steps completed. */
  lemma {:induction false} Joins(c: Callers, a: seq<Step>, m: nat, b: seq<Step>, j: nat) returns (run: seq<State>)
    requires a in c.lists && b in c.lists && Acceptable(a) && Acceptable(b) && c.same(a, b)
    requires j <= m <= |a| && j <= |b| && forall i | 0 <= i < j :: a[i].id == b[i].id
    ensures IsRun(c, run)
    ensures var s := run[|run| - 1];
            && |s.invokers| == 2 && AloneAt(a, m, s.(invokers := s.invokers[..1]))
            && s.invokers[1] == Invoker(Walking(j), s.stored, b)
  {
    if j == 0 {
      run := Alone(c, a, m);
      var s := run[|run| - 1];
      var joined := s.(invokers := s.invokers + [Invoker(Walking(0), s.stored, b)]);
      assert Enters(c, s, b, joined);
      RunContinues(c, run, joined);
      assert joined.(invokers := joined.invokers[..1]) == s;
      run := run + [joined];
    } else {
      run := Joins(c, a, m, b, j - 1);
      var s := run[|run| - 1];
      assert Ids(a, m)[j - 1] == b[j - 1].id;
      var next := Moved(s, 1, Walking(j), s.stored);
      assert Walks(s, 1, next);
      RunExtends(c, run, 1, next);
      assert next.(invokers := next.invokers[..1]) == s.(invokers := s.invokers[..1]);
      run := run + [next];
    }
  }

  /** Equal lists whose ids differ: the second invocation starts a step that the first has completed. */
  lemma DifferentIdsDoNotLock(c: Callers, a: seq<Step>, b: seq<Step>, j: nat) returns (run: seq<State>)
    requires a in c.lists && b in c.lists && Acceptable(a) && Acceptable(b) && c.same(a, b)
    requires j < |a| && j < |b| && a[j].id != b[j].id && forall i | 0 <= i < j :: a[i].id == b[i].id
    ensures IsRun(c, run) && !NoRepeat(run[|run| - 1].log)
  {
    var before := Joins(c, a, j + 1, b, j);
    var s := before[|before| - 1];
    assert b[j].id !in Ids(a, j + 1);
    var wf := Claiming(s.stored, b[j].id);
    var s1 := Moved(s, 1, Holding(j), wf).(stored := wf);
    var s2 := Moved(s1, 1, Called(j), wf).(log := s1.log + [Mark(j, Unheard)]);
    assert Walks(s, 1, s1);
    RunExtends(c, before, 1, s1);
    assert Starts(s1, 1, s2);
    RunExtends(c, before + [s1], 1, s2);
    run := before + [s1] + [s2];
    assert s2.log[j] == Mark(j, Succeeded("")) && s2.log[j + 1] == Mark(j, Unheard);
  }

  /** A step whose id is empty is started by two invocations at once. */
  lemma EmptyIdDoesNotLock(c: Callers, steps: seq<Step>, j: nat) returns (run: seq<State>)
    requires steps in c.lists && Acceptable(steps) && c.same(steps, steps) && j < |steps| && steps[j].id == ""
    ensures IsRun(c, run) && !NoRepeat(run[|run| - 1].log)
  {
    var before := Joins(c, steps, j, steps, j);
    var s := before[|before| - 1];
    CompletedIds(steps, j, j);
    var wf := Claiming(s.stored, "");
    var s1 := Moved(s, 0, Holding(j), wf).(stored := wf);
    var s2 := Moved(s1, 0, Called(j), wf).(log := s1.log + [Mark(j, Unheard)]);
    var s3 := Moved(s2, 1, Holding(j), wf);
    var s4 := Moved(s3, 1, Called(j), wf).(log := s3.log + [Mark(j, Unheard)]);
    assert s.invokers[..1][0] == s.invokers[0];
    assert Walks(s, 0, s1);
    RunExtends(c, before, 0, s1);
    assert Starts(s1, 0, s2);
    RunExtends(c, before + [s1], 0, s2);
    assert Walks(s2, 1, s3);
    RunExtends(c, before + [s1] + [s2], 1, s3);
    assert Starts(s3, 1, s4);
    RunExtends(c, before + [s1] + [s2] + [s3], 1, s4);
    run := before + [s1] + [s2] + [s3] + [s4];
    assert s4.log[j] == s4.log[j + 1] == Mark(j, Unheard);
  }

  /** In every run, of two starts of the same step the earlier one was handed back. */
  ghost predicate Safe(c: Callers) {
    forall run: seq<State> | IsRun(c, run) :: NoRepeat(run[|run| - 1].log)
  }

  lemma {:induction false} FirstDifference(a: seq<Step>, b: seq<Step>, n: nat) returns (j: nat)
    requires n <= |a| == |b| && exists i | 0 <= i < n :: a[i].id != b[i].id
    ensures j < n && a[j].id != b[j].id && forall i | 0 <= i < j :: a[i].id == b[i].id
  {
    if i :| 0 <= i < n - 1 && a[i].id != b[i].id {
      j := FirstDifference(a, b, n - 1);
    } else {
      j := n - 1;
    }
  }

  /** The lock works exactly when lists that are equal under `==` have the same ids, and no id is empty. */
  lemma SafeIffIdsAgree(c: Callers)
    requires Sensible(c)
    ensures Safe(c) <==> Agreeing(c)
  {
    if Agreeing(c) {
      forall run: seq<State> | IsRun(c, run) ensures NoRepeat(run[|run| - 1].log) {
        LockSafety(c, run, |run| - 1);
      }
    } else {
      var a: seq<Step>, b: seq<Step> :| a in c.lists && b in c.lists && Acceptable(a) && Acceptable(b) && c.same(a, b)
        && !(SameIds(a, b) && NonEmptyIds(a));
      if !SameIds(a, b) {
        var j := FirstDifference(a, b, |a|);
        var run := DifferentIdsDoNotLock(c, a, b, j);
      } else {
        var j :| 0 <= j < |a| && a[j].id == "";
        var run := EmptyIdDoesNotLock(c, a, j);
      }
    }
  }
}
