/**
 Durable background jobs (src/lightworker/jobs.py): leases fenced by an epoch, and a control cascade
 down the forest of child jobs.

 Each operation is one transaction of the source.  A job id is the position of the job in creation
 order.  Every reading of the clock is an argument of its own, so the clock may jump in any direction.
 */
module Jobs {
  import opened Prelude

  type Time = real

  datatype Status = Pending | Running | Paused | Interrupted | Completed | Failed | Cancelled

  predicate Terminal(status: Status) {
    status.Completed? || status.Failed? || status.Cancelled?
  }

  datatype Item = Item(cursor: nat, value: string)

  datatype Job = Job(
    kind: string, status: Status, epoch: nat, leaseUntil: Time, owner: string, parent: Option<nat>, key: string,
    output: seq<Item>, cursor: nat, result: string, error: string)

  const WINDOW := 64

  const OUTPUT_LIMIT := 4096

  const CUT_NOTE := "\U{2026}[full output in job log]"

  datatype Action = Pause | Cancel | Resume

  /** One transaction, by the registry named `owner`. */
  datatype Op =
    | Create(kind: string, parent: Option<nat>, key: string)
    | Claim(id: nat, owner: string, now: Time, leaseUntil: Time)
    | Renew(id: nat, owner: string, epoch: nat, now: Time, leaseUntil: Time)
    | Output(id: nat, owner: string, epoch: nat, now: Time, value: string)
    | Finish(id: nat, owner: string, epoch: nat, now: Time, result: string, raised: Option<string>)
    | Control(id: nat, owner: string, action: Action, provided: bool, leaseUntil: Time)
    | Recover(clock: nat -> Time, alive: nat -> bool)
    | Interrupt(id: nat, owner: string, epoch: nat, control: Option<Status>)

  /** The jobs afterwards, and whether the operation did its work. */
  datatype Effect = Effect(jobs: seq<Job>, ok: bool)

  predicate Claimable(job: Job, now: Time) {
    && !(job.status.Running? && job.leaseUntil > now)
    && (job.status.Pending? || job.status.Interrupted? || job.status.Paused? || job.status.Running?)
  }

  function Claimed(job: Job, owner: string, leaseUntil: Time): Job {
    job.(status := Running, owner := owner, epoch := job.epoch + 1, leaseUntil := leaseUntil)
  }

  /** `_fence`, which `renew` repeats: a live lease of this registry under this very epoch. */
  predicate Holds(job: Job, owner: string, epoch: nat, now: Time) {
    job.status.Running? && job.epoch == epoch && job.owner == owner && job.leaseUntil >= now
  }

  function LastItems(items: seq<Item>): (r: seq<Item>) {
    if |items| <= WINDOW then items else items[|items| - WINDOW..]
  }

  /** The form in which an output is kept with the job: a long one is cut. */
  function Kept(value: string): string {
    if |value| > OUTPUT_LIMIT then value[..OUTPUT_LIMIT] + CUT_NOTE else value
  }

  function Published(job: Job, value: string): Job {
    job.(output := LastItems(job.output + [Item(job.cursor + 1, Kept(value))]), cursor := job.cursor + 1)
  }

  /** An exception's text may be empty, and then reads as no error. */
  function ErrorText(raised: Option<string>): string {
    if raised.Some? then raised.value else ""
  }

  function Finished(job: Job, result: string, raised: Option<string>): Job {
    var error := ErrorText(raised);
    job.(status := if error != "" then Failed else Completed, result := result, error := error)
  }

  function Target(action: Action): Status {
    match action
    case Pause => Paused
    case Cancel => Cancelled
    case Resume => Pending
  }

  function Controlled(job: Job, target: Status): Job {
    job.(status := target, epoch := job.epoch + 1, leaseUntil := 0.0)
  }

  /** `j` is a non-terminal job that hangs under `root` through non-terminal jobs, or is `root`. */
  predicate Reaches(jobs: seq<Job>, root: nat, j: nat)
    requires j < |jobs|
    decreases j
  {
    && !Terminal(jobs[j].status)
    && (j == root || (jobs[j].parent.Some? && jobs[j].parent.value < j && Reaches(jobs, root, jobs[j].parent.value)))
  }

  /** The whole subtree controlled, everything else untouched. */
  function Cascaded(jobs: seq<Job>, root: nat, target: Status): (r: seq<Job>)
    ensures |r| == |jobs|
    ensures forall j | 0 <= j < |jobs| ::
              r[j] == if Reaches(jobs, root, j) then Controlled(jobs[j], target) else jobs[j]
  {
    seq(|jobs|, j requires 0 <= j < |jobs| =>
      if Reaches(jobs, root, j) then Controlled(jobs[j], target) else jobs[j])
  }

  predicate Controllable(job: Job, action: Action, provided: bool) {
    && !Terminal(job.status)
    && (action.Resume? ==> provided && (job.status.Paused? || job.status.Interrupted?))
  }

  predicate Expired(job: Job, now: Time, alive: bool) {
    (job.status.Running? && job.leaseUntil <= now) || ((job.status.Pending? || job.status.Running?) && !alive)
  }

  function Recovered(job: Job, now: Time, alive: bool): Job {
    if Expired(job, now, alive) then
      job.(status := Interrupted, error := "worker lease expired", leaseUntil := 0.0)
    else
      job
  }

  /** One pass of the recovery loop. */
  function AllRecovered(jobs: seq<Job>, clock: nat -> Time, alive: nat -> bool): (r: seq<Job>)
    ensures |r| == |jobs|
    ensures forall j | 0 <= j < |jobs| :: r[j] == Recovered(jobs[j], clock(j), alive(j))
  {
    seq(|jobs|, j requires 0 <= j < |jobs| => Recovered(jobs[j], clock(j), alive(j)))
  }

  /** The index of the job with this idempotency key, if a key is given. */
  predicate HasKey(jobs: seq<Job>, key: string) {
    key != "" && exists j | 0 <= j < |jobs| :: jobs[j].key == key
  }

  function NewJob(count: nat, kind: string, parent: Option<nat>, key: string): Job {
    // an id nobody has yet can never become the id of a job: it is no parent
    var known := if parent.Some? && parent.value < count then parent else None;
    Job(kind, Pending, 0, 0.0, "", known, key, [], 0, "", "")
  }

  function Apply(jobs: seq<Job>, op: Op): Effect {
    match op
    case Create(kind, parent, key) =>
      if HasKey(jobs, key) then Effect(jobs, true) else Effect(jobs + [NewJob(|jobs|, kind, parent, key)], true)
    case Claim(id, owner, now, leaseUntil) =>
      if id < |jobs| && Claimable(jobs[id], now) then
        Effect(jobs[id := Claimed(jobs[id], owner, leaseUntil)], true)
      else
        Effect(jobs, false)
    case Renew(id, owner, epoch, now, leaseUntil) =>
      if id < |jobs| && Holds(jobs[id], owner, epoch, now) then
        Effect(jobs[id := jobs[id].(leaseUntil := leaseUntil)], true)
      else
        Effect(jobs, false)
    case Output(id, owner, epoch, now, value) =>
      if id < |jobs| && Holds(jobs[id], owner, epoch, now) then
        Effect(jobs[id := Published(jobs[id], value)], true)
      else
        Effect(jobs, false)
    case Finish(id, owner, epoch, now, result, raised) =>
      if id < |jobs| && Holds(jobs[id], owner, epoch, now) then
        Effect(jobs[id := Finished(jobs[id], result, raised)], true)
      else
        Effect(jobs, false)
    case Control(id, owner, action, provided, leaseUntil) =>
      if id < |jobs| && Controllable(jobs[id], action, provided) then
        if action.Resume? then
          Effect(jobs[id := Claimed(Controlled(jobs[id], Pending), owner, leaseUntil)], true)
        else
          Effect(Cascaded(jobs, id, Target(action)), true)
      else
        Effect(jobs, false)
    case Recover(clock, alive) =>
      Effect(AllRecovered(jobs, clock, alive), true)
    case Interrupt(id, owner, epoch, control) =>
      if id < |jobs| && jobs[id].status.Running? && jobs[id].epoch == epoch && jobs[id].owner == owner then
        var status := if control == Some(Paused) || control == Some(Cancelled) then control.value else Interrupted;
        Effect(jobs[id := jobs[id].(status := status, leaseUntil := 0.0)], true)
      else
        Effect(jobs, false)
  }

  // ---------- Every operation, over whole runs ----------

  /** The jobs after a whole run of operations, by any registries in any order. */
  function After(ops: seq<Op>): seq<Job> {
    if ops == [] then [] else Apply(After(ops[..|ops| - 1]), ops[|ops| - 1]).jobs
  }

  function Succeeds(ops: seq<Op>, i: nat): bool
    requires i < |ops|
  {
    Apply(After(ops[..i]), ops[i]).ok
  }

  /** Epochs never fall, terminal jobs never change, and parents and keys stay. */
  ghost predicate Advances(before: seq<Job>, after: seq<Job>) {
    |before| <= |after| && forall j | 0 <= j < |before| :: Succeeded(before[j], after[j])
  }

  predicate Succeeded(before: Job, after: Job) {
    && before.epoch <= after.epoch
    && before.parent == after.parent && before.kind == after.kind && before.key == after.key
    && (Terminal(before.status) ==> after == before)
  }

  lemma ApplyAdvancesOne(jobs: seq<Job>, op: Op, j: nat)
    requires j < |jobs|
    ensures |jobs| <= |Apply(jobs, op).jobs| && Succeeded(jobs[j], Apply(jobs, op).jobs[j])
  {
    match op
    case Create(_, _, _) =>
    case Claim(_, _, _, _) =>
    case Renew(_, _, _, _, _) =>
    case Output(_, _, _, _, _) =>
    case Finish(_, _, _, _, _, _) =>
    case Control(_, _, _, _, _) =>
    case Recover(_, _) =>
    case Interrupt(_, _, _, _) =>
  }

  lemma ApplyAdvances(jobs: seq<Job>, op: Op)
    ensures Advances(jobs, Apply(jobs, op).jobs)
  {
    forall j | 0 <= j < |jobs|
      ensures Succeeded(jobs[j], Apply(jobs, op).jobs[j])
    {
      ApplyAdvancesOne(jobs, op, j);
    }
  }

  lemma {:induction false} RunAdvances(ops: seq<Op>, i: nat, k: nat)
    requires i <= k <= |ops|
    ensures Advances(After(ops[..i]), After(ops[..k]))
  {
    if i < k {
      RunAdvances(ops, i, k - 1);
      assert ops[..k][..k - 1] == ops[..k - 1];
      ApplyAdvances(After(ops[..k - 1]), ops[k - 1]);
    }
  }

  lemma OneStep(ops: seq<Op>, i: nat)
    requires i < |ops|
    ensures After(ops[..i + 1]) == Apply(After(ops[..i]), ops[i]).jobs
  {
    assert ops[..i + 1][..i] == ops[..i];
  }

  /** Successive successful claims of a job return strictly increasing epochs. */
  lemma ClaimsIncrease(ops: seq<Op>, i: nat, k: nat)
    requires i < k < |ops| && ops[i].Claim? && ops[k].Claim? && ops[i].id == ops[k].id
    requires Succeeds(ops, i) && Succeeds(ops, k)
    ensures var j := ops[i].id;
            j < |After(ops[..i + 1])| <= |After(ops[..k + 1])|
            && After(ops[..i + 1])[j].epoch < After(ops[..k + 1])[j].epoch
  {
    OneStep(ops, i);
    OneStep(ops, k);
    RunAdvances(ops, i + 1, k);
  }

  /** The lease an operation needs, if it needs one. */
  predicate Leased(op: Op) {
    op.Renew? || op.Output? || op.Finish?
  }

  /** Once a job has reached an epoch, nothing succeeds under a smaller one. */
  lemma StaleEpochFails(ops: seq<Op>, i: nat, k: nat, j: nat)
    requires i <= k < |ops| && j < |After(ops[..i])|
    requires Leased(ops[k]) && ops[k].id == j && ops[k].epoch < After(ops[..i])[j].epoch
    ensures !Succeeds(ops, k)
  {
    RunAdvances(ops, i, k);
  }

  /** At most one finish of a job ever succeeds; after it the job stays as it is. */
  lemma FinishOnce(ops: seq<Op>, i: nat, k: nat)
    requires i < k < |ops| && ops[i].Finish? && ops[k].Finish? && ops[i].id == ops[k].id
    requires Succeeds(ops, i)
    ensures !Succeeds(ops, k)
    ensures ops[i].id < |After(ops[..i + 1])| <= |After(ops[..k + 1])|
    ensures After(ops[..k + 1])[ops[i].id] == After(ops[..i + 1])[ops[i].id]
  {
    OneStep(ops, i);
    OneStep(ops, k);
    RunAdvances(ops, i + 1, k);
  }

  /** A claim or a control action revokes every lease of the job that was handed out before. */
  lemma ClaimRevokes(ops: seq<Op>, i: nat, k: nat)
    requires i < k < |ops| && Leased(ops[k]) && Succeeds(ops, k)
    requires (ops[i].Claim? || ops[i].Control?) && Succeeds(ops, i) && ops[i].id == ops[k].id
    ensures ops[k].id < |After(ops[..i])| && After(ops[..i])[ops[k].id].epoch < ops[k].epoch
  {
    OneStep(ops, i);
    RunAdvances(ops, i + 1, k);
  }

  /** Operation `k` finished job `j`. */
  predicate Finishes(ops: seq<Op>, k: nat, j: nat)
    requires k < |ops|
  {
    ops[k].Finish? && ops[k].id == j && Succeeds(ops, k)
  }

  /** Only finishing without an error text completes a job. */
  lemma ApplyCompletes(jobs: seq<Job>, op: Op, j: nat)
    requires j < |Apply(jobs, op).jobs| && Apply(jobs, op).jobs[j].status.Completed?
    requires j < |jobs| ==> !jobs[j].status.Completed?
    ensures op.Finish? && op.id == j && Apply(jobs, op).ok && ErrorText(op.raised) == ""
  {
    match op
    case Create(_, _, _) =>
    case Claim(_, _, _, _) =>
    case Renew(_, _, _, _, _) =>
    case Output(_, _, _, _, _) =>
    case Finish(_, _, _, _, _, _) =>
    case Control(_, _, _, _, _) =>
    case Recover(_, _) =>
    case Interrupt(_, _, _, _) =>
  }

  lemma {:induction false} CompletedBy(ops: seq<Op>, n: nat, j: nat) returns (k: nat)
    requires n <= |ops| && j < |After(ops[..n])| && After(ops[..n])[j].status.Completed?
    ensures k < n && Finishes(ops, k, j) && ErrorText(ops[k].raised) == ""
  {
    k := n - 1;
    OneStep(ops, k);
    if j < |After(ops[..k])| && After(ops[..k])[j].status.Completed? {
      k := CompletedBy(ops, k, j);
    } else {
      ApplyCompletes(After(ops[..k]), ops[k], j);
    }
  }

  /** The job's work returned, and was not raised out of. */
  ghost predicate Returned(ops: seq<Op>, j: nat) {
    exists k | 0 <= k < |ops| :: Finishes(ops, k, j) && ops[k].raised.None?
  }

  /**
   In every run: a job is recorded as completed only if its work returned, exactly when no work ends with an
   exception whose text is empty.
   */
  lemma CompletedMeansReturnedIffErrorsHaveTexts(ops: seq<Op>)
    ensures (forall j | 0 <= j < |After(ops)| && After(ops)[j].status.Completed? :: Returned(ops, j))
       <==> (forall k | 0 <= k < |ops| && ops[k].Finish? && Succeeds(ops, k) :: ops[k].raised != Some(""))
  {
    assert ops[..|ops|] == ops;
    if forall k | 0 <= k < |ops| && ops[k].Finish? && Succeeds(ops, k) :: ops[k].raised != Some("") {
      forall j | 0 <= j < |After(ops)| && After(ops)[j].status.Completed? ensures Returned(ops, j) {
        var k := CompletedBy(ops, |ops|, j);
      }
    } else {
      var k :| 0 <= k < |ops| && ops[k].Finish? && Succeeds(ops, k) && ops[k].raised == Some("");
      SilentFailureCompletes(ops, k);
    }
  }

  lemma SilentFailureCompletes(ops: seq<Op>, k: nat)
    requires k < |ops| && ops[k].Finish? && Succeeds(ops, k) && ops[k].raised == Some("")
    ensures ops[k].id < |After(ops)| && After(ops)[ops[k].id].status.Completed? && !Returned(ops, ops[k].id)
  {
    var j := ops[k].id;
    OneStep(ops, k);
    RunAdvances(ops, k + 1, |ops|);
    assert ops[..|ops|] == ops;
    forall i | 0 <= i < |ops| && Finishes(ops, i, j) ensures i == k {
      if i < k {
        FinishOnce(ops, i, k);
      } else if k < i {
        FinishOnce(ops, k, i);
      }
    }
  }

  /** A parent was created before its children. */
  ghost predicate Forest(jobs: seq<Job>) {
    forall j | 0 <= j < |jobs| && jobs[j].parent.Some? :: jobs[j].parent.value < j
  }

  lemma {:induction false} RunsBuildForests(ops: seq<Op>)
    ensures Forest(After(ops))
  {
    if ops != [] {
      var before := After(ops[..|ops| - 1]);
      RunsBuildForests(ops[..|ops| - 1]);
      ApplyAdvances(before, ops[|ops| - 1]);
    }
  }
}
