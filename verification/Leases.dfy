/**
 What a lease is worth (src/lightworker/jobs.py): while it runs the job belongs to its holder alone, and what each
 operation leaves behind in the job's record.
 */
module Leases {
  import opened Prelude
  import opened Jobs

  /** Operation `i` hands job `j` out, or renews its lease, until `ops[i].leaseUntil`. */
  predicate Grants(ops: seq<Op>, i: nat, j: nat)
    requires i < |ops|
  {
    && Succeeds(ops, i)
    && match ops[i]
       case Claim(id, _, _, _) => id == j
       case Renew(id, _, _, _, _) => id == j
       case Control(id, _, action, _, _) => id == j && action.Resume?
       case _ => false
  }

  /** Operation `n` does not touch a lease of job `j` that runs until `until`. */
  predicate Passes(ops: seq<Op>, n: nat, j: nat, until: Time)
    requires n < |ops|
  {
    !Succeeds(ops, n)
    || match ops[n]
       case Create(_, _, _) => true
       case Output(_, _, _, _, _) => true
       case Claim(id, _, _, _) => id != j
       case Renew(id, _, _, _, _) => id != j
       case Finish(id, _, _, _, _, _) => id != j
       case Interrupt(id, _, _, _) => id != j
       case Control(id, _, action, _, _) =>
         if action.Resume? then id != j else j < |After(ops[..n])| && !Reaches(After(ops[..n]), id, j)
       case Recover(clock, alive) => clock(j) < until && alive(j)
  }

  /** Job `j` is running under this lease. */
  predicate Leased(jobs: seq<Job>, j: nat, owner: string, epoch: nat, until: Time) {
    && j < |jobs| && jobs[j].status.Running?
    && jobs[j].owner == owner && jobs[j].epoch == epoch && jobs[j].leaseUntil == until
  }

  lemma GrantLeases(ops: seq<Op>, i: nat, j: nat)
    requires i < |ops| && Grants(ops, i, j)
    ensures var jobs := After(ops[..i + 1]);
            j < |jobs| && Leased(jobs, j, ops[i].owner, jobs[j].epoch, ops[i].leaseUntil)
  {
    OneStep(ops, i);
  }

  lemma PassingKeepsLease(ops: seq<Op>, n: nat, j: nat, owner: string, epoch: nat, until: Time)
    requires n < |ops| && Leased(After(ops[..n]), j, owner, epoch, until) && Passes(ops, n, j, until)
    ensures Leased(After(ops[..n + 1]), j, owner, epoch, until)
  {
    OneStep(ops, n);
    match ops[n]
    case Create(_, _, _) =>
    case Claim(_, _, _, _) =>
    case Renew(_, _, _, _, _) =>
    case Output(_, _, _, _, _) =>
    case Finish(_, _, _, _, _, _) =>
    case Control(_, _, _, _, _) =>
    case Recover(_, _) =>
    case Interrupt(_, _, _, _) =>
  }

  lemma {:induction false} LeaseStays(ops: seq<Op>, i: nat, k: nat, j: nat)
    requires i < k <= |ops| && Grants(ops, i, j)
    requires forall n | i < n < k :: Passes(ops, n, j, ops[i].leaseUntil)
    ensures j < |After(ops[..i + 1])|
    ensures Leased(After(ops[..k]), j, ops[i].owner, After(ops[..i + 1])[j].epoch, ops[i].leaseUntil)
    decreases k
  {
    GrantLeases(ops, i, j);
    if i + 1 < k {
      LeaseStays(ops, i, k - 1, j);
      PassingKeepsLease(ops, k - 1, j, ops[i].owner, After(ops[..i + 1])[j].epoch, ops[i].leaseUntil);
    }
  }

  /**
   The lease that was granted last decides, in every run.  Until it ends its holder, and nobody else, may renew, publish
   and finish under the epoch of the grant; afterwards nobody may.  A claim succeeds exactly when it has ended.
   */
  lemma LeaseDecides(ops: seq<Op>, i: nat, k: nat)
    requires i < k < |ops| && (ops[k].Renew? || ops[k].Output? || ops[k].Finish? || ops[k].Claim?)
    requires Grants(ops, i, ops[k].id) && forall n | i < n < k :: Passes(ops, n, ops[k].id, ops[i].leaseUntil)
    ensures ops[k].id < |After(ops[..i + 1])|
    ensures Succeeds(ops, k) <==>
              if ops[k].Claim? then
                ops[i].leaseUntil <= ops[k].now
              else
                && ops[k].owner == ops[i].owner && ops[k].epoch == After(ops[..i + 1])[ops[k].id].epoch
                && ops[k].now <= ops[i].leaseUntil
  {
    LeaseStays(ops, i, k, ops[k].id);
  }

  /** While the holder's lease runs, a second claim is refused unless something has taken the lease away. */
  lemma LeaseIsExclusive(ops: seq<Op>, i: nat, k: nat)
    requires i < k < |ops| && ops[i].Claim? && ops[k].Claim? && ops[i].id == ops[k].id
    requires Succeeds(ops, i) && Succeeds(ops, k) && ops[k].now < ops[i].leaseUntil
    ensures exists n | i < n < k :: !Passes(ops, n, ops[k].id, ops[i].leaseUntil)
  {
    if forall n | i < n < k :: Passes(ops, n, ops[k].id, ops[i].leaseUntil) {
      LeaseDecides(ops, i, k);
      assert false;
    }
  }

  // ---------- Who may claim a job that nobody holds ----------

  /** Operation `n` leaves job `j` exactly as it is. */
  ghost predicate Spares(ops: seq<Op>, n: nat, j: nat)
    requires n < |ops|
  {
    j < |After(ops[..n])| && j < |After(ops[..n + 1])| && After(ops[..n + 1])[j] == After(ops[..n])[j]
  }

  lemma {:induction false} Spared(ops: seq<Op>, i: nat, k: nat, j: nat)
    requires i <= k <= |ops| && j < |After(ops[..i])| && forall n | i <= n < k :: Spares(ops, n, j)
    ensures j < |After(ops[..k])| && After(ops[..k])[j] == After(ops[..i])[j]
    decreases k
  {
    if i < k {
      Spared(ops, i, k - 1, j);
      assert Spares(ops, k - 1, j);
    }
  }

  /** Operation `i` leaves job `j` open: it creates, pauses or interrupts it. */
  predicate Opens(ops: seq<Op>, i: nat, j: nat)
    requires i < |ops|
  {
    var jobs := After(ops[..i]);
    && Succeeds(ops, i)
    && match ops[i]
       case Create(_, _, key) => j == |jobs| && !HasKey(jobs, key)
       case Control(id, _, action, _, _) => action.Pause? && j < |jobs| && Reaches(jobs, id, j)
       case Recover(clock, alive) => j < |jobs| && jobs[j].status.Running? && jobs[j].leaseUntil <= clock(j)
       case Interrupt(id, _, _, control) => id == j && control != Some(Cancelled)
       case _ => false
  }

  /** Such a job can be claimed at once, whatever the clock says, until something else is done to it. */
  lemma OpenJobIsClaimable(ops: seq<Op>, i: nat, k: nat)
    requires i < k < |ops| && ops[k].Claim? && Opens(ops, i, ops[k].id)
    requires forall n | i < n < k :: Spares(ops, n, ops[k].id)
    ensures Succeeds(ops, k)
  {
    OneStep(ops, i);
    Spared(ops, i + 1, k, ops[k].id);
  }

  /** A job that was finished or cancelled is never handed out again. */
  lemma ClosedJobIsNeverClaimed(ops: seq<Op>, i: nat, k: nat)
    requires i < k < |ops| && Succeeds(ops, i)
    requires ops[k].Claim? || (ops[k].Control? && ops[k].action.Resume?)
    requires ops[i].Finish? || (ops[i].Control? && ops[i].action.Cancel?)
    requires ops[i].id == ops[k].id
    ensures !Succeeds(ops, k)
  {
    OneStep(ops, i);
    RunAdvances(ops, i + 1, k);
  }

  // ---------- What each operation leaves behind ----------

  /** A control action is refused for a closed job, and a resume also for one that is neither paused nor interrupted. */
  lemma ControlSucceedsWhen(jobs: seq<Job>, op: Op)
    requires op.Control?
    ensures Apply(jobs, op).ok <==>
              && op.id < |jobs|
              && !jobs[op.id].status.Completed? && !jobs[op.id].status.Failed? && !jobs[op.id].status.Cancelled?
              && (op.action.Resume? ==> op.provided && (jobs[op.id].status.Paused? || jobs[op.id].status.Interrupted?))
    ensures !Apply(jobs, op).ok ==> Apply(jobs, op).jobs == jobs
  {
  }

  /** Pausing pauses, cancelling cancels, and both revoke the lease; resuming hands the job to the registry. */
  lemma ControlMoves(jobs: seq<Job>, op: Op, j: nat)
    requires op.Control? && Apply(jobs, op).ok && j < |jobs|
    ensures var after := Apply(jobs, op).jobs;
            && |after| == |jobs|
            && match op.action
               case Pause =>
                 after[j] == if Reaches(jobs, op.id, j) then
                               jobs[j].(status := Status.Paused, epoch := jobs[j].epoch + 1, leaseUntil := 0.0)
                             else
                               jobs[j]
               case Cancel =>
                 after[j] == if Reaches(jobs, op.id, j) then
                               jobs[j].(status := Status.Cancelled, epoch := jobs[j].epoch + 1, leaseUntil := 0.0)
                             else
                               jobs[j]
               case Resume =>
                 after[j] == if j == op.id then
                               jobs[j].(status := Status.Running, epoch := jobs[j].epoch + 2, owner := op.owner,
                                        leaseUntil := op.leaseUntil)
                             else
                               jobs[j]
  {
  }

  /** A successful finish keeps the result, and fails the job exactly when there is an error text. */
  lemma FinishRecords(jobs: seq<Job>, op: Op, j: nat)
    requires op.Finish? && Apply(jobs, op).ok && j < |jobs|
    ensures var after, error := Apply(jobs, op).jobs, if op.raised.Some? then op.raised.value else "";
            && |after| == |jobs|
            && after[j] == if j != op.id then jobs[j]
                           else jobs[j].(status := if error == "" then Status.Completed else Status.Failed,
                                         result := op.result, error := error)
  {
  }

  /** The last output entry: a value of at most 4096 characters whole, a longer one cut, with a note. */
  lemma OutputKeepsValue(jobs: seq<Job>, op: Op)
    requires op.Output? && Apply(jobs, op).ok
    ensures op.id < |jobs| && op.id < |Apply(jobs, op).jobs|
    ensures var before, after := jobs[op.id], Apply(jobs, op).jobs[op.id];
            && after.cursor == before.cursor + 1 && 0 < |after.output| <= 64
            && after.output[|after.output| - 1]
               == Item(after.cursor, if |op.value| <= 4096 then op.value
                                     else op.value[..4096] + "\U{2026}[full output in job log]")
            && (|before.output| < 64 ==> after.output[..|after.output| - 1] == before.output)
            && after == before.(output := after.output, cursor := after.cursor)
  {
  }

  /** A known key creates nothing; otherwise the new job is pending, under epoch 0, and nobody's. */
  lemma CreateAdds(jobs: seq<Job>, op: Op)
    requires op.Create?
    ensures Apply(jobs, op).ok
    ensures if op.key != "" && exists j | 0 <= j < |jobs| :: jobs[j].key == op.key then
              Apply(jobs, op).jobs == jobs
            else
              exists job :: Apply(jobs, op).jobs == jobs + [job] && job.status == Status.Pending && job.epoch == 0
                && job.kind == op.kind && job.key == op.key && job.output == [] && job.cursor == 0
                && job.parent == if op.parent.Some? && op.parent.value < |jobs| then op.parent else None
  {
    assert Apply(jobs, op).jobs != jobs ==> Apply(jobs, op).jobs[|jobs|].status == Status.Pending;
  }

  /** Recovery interrupts exactly the running jobs whose lease is over and the open ones whose owner is gone. */
  lemma RecoveryInterrupts(jobs: seq<Job>, op: Op, j: nat)
    requires op.Recover? && j < |jobs|
    ensures var after, status := Apply(jobs, op).jobs, jobs[j].status;
            var lost := || (status.Running? && jobs[j].leaseUntil <= op.clock(j))
                        || ((status.Pending? || status.Running?) && !op.alive(j));
            && |after| == |jobs|
            && after[j] == if lost then
                             jobs[j].(status := Status.Interrupted, error := "worker lease expired", leaseUntil := 0.0)
                           else
                             jobs[j]
  {
  }

  /** A driver that lost its lease marks the job only while it is its own, as paused or cancelled if it was told so. */
  lemma InterruptMarks(jobs: seq<Job>, op: Op, j: nat)
    requires op.Interrupt? && j < |jobs|
    ensures var after, job := Apply(jobs, op).jobs, jobs[j];
            var own := j == op.id && job.status.Running? && job.epoch == op.epoch && job.owner == op.owner;
            && |after| == |jobs|
            && after[j] == if !own then job
                           else if op.control == Some(Status.Paused) then
                             job.(status := Status.Paused, leaseUntil := 0.0)
                           else if op.control == Some(Status.Cancelled) then
                             job.(status := Status.Cancelled, leaseUntil := 0.0)
                           else job.(status := Status.Interrupted, leaseUntil := 0.0)
  {
  }

  /** In every run two jobs never share an idempotency key. */
  lemma {:induction false} KeysAreUnique(ops: seq<Op>, i: nat, j: nat)
    requires i < j < |After(ops)| && After(ops)[i].key == After(ops)[j].key
    ensures After(ops)[i].key == ""
  {
    if ops != [] {
      var init, last := ops[..|ops| - 1], ops[|ops| - 1];
      if j < |After(init)| {
        ApplyAdvancesOne(After(init), last, i);
        ApplyAdvancesOne(After(init), last, j);
        KeysAreUnique(init, i, j);
      } else {
        ApplyAdvancesOne(After(init), last, i);
        assert last.Create?;
      }
    }
  }
}
