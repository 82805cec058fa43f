/** `JobRegistry` (src/lightworker/jobs.py): the transactions as methods, among them the recursive control. */
module JobCascade {
  import opened Prelude
  import opened Jobs

  lemma ReachesFrom(jobs: seq<Job>, root: nat, j: nat)
    requires j < |jobs| && Reaches(jobs, root, j)
    ensures root <= j
  {
  }

  /** The subtrees of two siblings have nothing in common. */
  lemma {:induction false} SiblingsApart(jobs: seq<Job>, a: nat, b: nat, j: nat)
    requires a < |jobs| && b < |jobs| && j < |jobs| && Forest(jobs)
    requires jobs[a].parent.Some? && jobs[a].parent == jobs[b].parent
    requires Reaches(jobs, a, j) && Reaches(jobs, b, j)
    ensures a == b
    decreases j
  {
    if j == a && j != b {
      ReachesFrom(jobs, b, jobs[a].parent.value);
    } else if j == b && j != a {
      ReachesFrom(jobs, a, jobs[b].parent.value);
    } else if j != a {
      SiblingsApart(jobs, a, b, jobs[j].parent.value);
    }
  }

  predicate IsChild(jobs: seq<Job>, root: nat, c: nat) {
    c < |jobs| && jobs[c].parent == Some(root) && !Terminal(jobs[c].status)
  }

  /** Below the root, the subtree is the subtrees of the non-terminal children. */
  lemma {:induction false} ReachesThroughChild(jobs: seq<Job>, root: nat, j: nat)
    requires root < |jobs| && j < |jobs| && j != root && Forest(jobs) && !Terminal(jobs[root].status)
    ensures Reaches(jobs, root, j) <==> exists c :: IsChild(jobs, root, c) && Reaches(jobs, c, j)
    decreases j
  {
    if jobs[j].parent.Some? && !Terminal(jobs[j].status) {
      var p := jobs[j].parent.value;
      if p == root {
        assert IsChild(jobs, root, j) && Reaches(jobs, j, j);
      } else {
        ReachesThroughChild(jobs, root, p);
        if Reaches(jobs, root, p) {
          var c :| IsChild(jobs, root, c) && Reaches(jobs, c, p);
          assert Reaches(jobs, c, j);
        }
        forall c | IsChild(jobs, root, c) && Reaches(jobs, c, j) ensures Reaches(jobs, c, p) {
          assert j != c;
        }
      }
    }
  }

  /** Controlling jobs outside the subtree of `c` leaves that subtree as it was. */
  lemma {:induction false} SubtreeFrame(jobs: seq<Job>, now: seq<Job>, c: nat, target: Status, j: nat)
    requires c < |jobs| == |now| && j < |jobs|
    requires forall x | 0 <= x < |jobs| ::
               || now[x] == jobs[x]
               || (now[x] == Controlled(jobs[x], target) && !Terminal(jobs[x].status) && !Reaches(jobs, c, x))
    ensures Reaches(now, c, j) <==> Reaches(jobs, c, j)
    decreases j
  {
    if j != c && jobs[j].parent.Some? && jobs[j].parent.value < j {
      SubtreeFrame(jobs, now, c, target, jobs[j].parent.value);
    }
  }

  /** What the loop over the children has reached: the root itself and the first `i` children's subtrees. */
  ghost predicate Touched(jobs: seq<Job>, root: nat, children: seq<nat>, i: nat, j: nat)
    requires j < |jobs| && i <= |children|
  {
    j == root || exists k | 0 <= k < i :: Reaches(jobs, children[k], j)
  }

  ghost predicate Partly(jobs: seq<Job>, root: nat, target: Status, children: seq<nat>, i: nat, now: seq<Job>)
    requires i <= |children|
  {
    && |now| == |jobs|
    && forall j | 0 <= j < |jobs| ::
         now[j] == if Touched(jobs, root, children, i, j) then Controlled(jobs[j], target) else jobs[j]
  }

  ghost predicate AreChildren(jobs: seq<Job>, root: nat, children: seq<nat>) {
    && (forall k | 0 <= k < |children| :: IsChild(jobs, root, children[k]))
    && (forall k, l | 0 <= k < l < |children| :: children[k] != children[l])
    && (forall c | IsChild(jobs, root, c) :: c in children)
  }

  /** The next child is still as it was, so its cascade does exactly its own subtree. */
  lemma NextChild(jobs: seq<Job>, root: nat, target: Status, children: seq<nat>, i: nat, now: seq<Job>)
    requires Forest(jobs) && root < |jobs| && !Terminal(jobs[root].status)
    requires AreChildren(jobs, root, children) && i < |children|
    requires Partly(jobs, root, target, children, i, now)
    ensures !Terminal(now[children[i]].status)
    ensures Partly(jobs, root, target, children, i + 1, Cascaded(now, children[i], target))
  {
    var c := children[i];
    forall x | 0 <= x < |jobs| && Reaches(jobs, c, x) ensures !Touched(jobs, root, children, i, x) {
      ReachesFrom(jobs, c, x);
      if k :| 0 <= k < i && Reaches(jobs, children[k], x) {
        SiblingsApart(jobs, children[k], c, x);
      }
    }
    forall x | 0 <= x < |jobs| && Touched(jobs, root, children, i, x) ensures !Terminal(jobs[x].status) {
    }
    forall j | 0 <= j < |jobs| ensures Reaches(now, c, j) <==> Reaches(jobs, c, j) {
      SubtreeFrame(jobs, now, c, target, j);
    }
    assert Reaches(jobs, c, c);
  }

  lemma AllChildren(jobs: seq<Job>, root: nat, target: Status, children: seq<nat>, now: seq<Job>)
    requires Forest(jobs) && root < |jobs| && !Terminal(jobs[root].status)
    requires AreChildren(jobs, root, children) && Partly(jobs, root, target, children, |children|, now)
    ensures now == Cascaded(jobs, root, target)
  {
    forall j | 0 <= j < |jobs| ensures Touched(jobs, root, children, |children|, j) <==> Reaches(jobs, root, j) {
      if j != root {
        ReachesThroughChild(jobs, root, j);
      }
    }
  }

  class JobStore {
    var jobs: seq<Job>

    constructor ()
      ensures jobs == []
    {
      jobs := [];
    }
  }

  class JobRegistry {
    const store: JobStore
    const owner: string

    constructor (store: JobStore, owner: string)
      ensures this.store == store && this.owner == owner
    {
      this.store := store;
      this.owner := owner;
    }

    method ChildrenOf(root: nat) returns (children: seq<nat>)
      ensures AreChildren(store.jobs, root, children)
    {
      children := [];
      for j := 0 to |store.jobs|
        invariant forall k | 0 <= k < |children| :: children[k] < j && IsChild(store.jobs, root, children[k])
        invariant forall k, l | 0 <= k < l < |children| :: children[k] != children[l]
        invariant forall c: nat | c < j && IsChild(store.jobs, root, c) :: c in children
      {
        if store.jobs[j].parent == Some(root) && !Terminal(store.jobs[j].status) {
          children := children + [j];
        }
      }
    }

    /** The recursion of `control` for pause and cancel; it fails only for a terminal job. */
    method ControlTree(root: nat, target: Status) returns (ok: bool)
      requires root < |store.jobs| && Forest(store.jobs)
      modifies store
      ensures ok == !Terminal(old(store.jobs)[root].status)
      ensures store.jobs == if ok then Cascaded(old(store.jobs), root, target) else old(store.jobs)
      decreases |store.jobs| - root
    {
      if Terminal(store.jobs[root].status) {
        return false;
      }
      ghost var jobs := store.jobs;
      store.jobs := store.jobs[root := Controlled(store.jobs[root], target)];
      var children := ChildrenOf(root);
      assert AreChildren(jobs, root, children) by {
        assert forall c: nat :: IsChild(jobs, root, c) == IsChild(store.jobs, root, c);
      }
      for i := 0 to |children|
        invariant Partly(jobs, root, target, children, i, store.jobs)
      {
        NextChild(jobs, root, target, children, i, store.jobs);
        var done := ControlTree(children[i], target);
        assert done;
      }
      AllChildren(jobs, root, target, children, store.jobs);
      return true;
    }

    method Create(kind: string, parent: Option<nat>, key: string) returns (id: nat)
      modifies store
      ensures store.jobs == Apply(old(store.jobs), Op.Create(kind, parent, key)).jobs
      ensures id < |store.jobs| && (key != "" ==> store.jobs[id].key == key)
      ensures id == |old(store.jobs)| <==> !HasKey(old(store.jobs), key)
    {
      if key != "" {
        for j := 0 to |store.jobs|
          invariant forall k | 0 <= k < j :: store.jobs[k].key != key
        {
          if store.jobs[j].key == key {
            return j;
          }
        }
      }
      id := |store.jobs|;
      store.jobs := store.jobs + [NewJob(|store.jobs|, kind, parent, key)];
    }

    method Claim(id: nat, now: Time, leaseUntil: Time) returns (epoch: Option<nat>)
      modifies store
      ensures var effect := Apply(old(store.jobs), Op.Claim(id, owner, now, leaseUntil));
              && store.jobs == effect.jobs
              && epoch == if effect.ok then Some(effect.jobs[id].epoch) else None
    {
      if id >= |store.jobs| || (store.jobs[id].status.Running? && store.jobs[id].leaseUntil > now) {
        return None;
      }
      match store.jobs[id].status {
        case Completed => return None;
        case Failed => return None;
        case Cancelled => return None;
        case _ =>
          store.jobs := store.jobs[id := Claimed(store.jobs[id], owner, leaseUntil)];
          return Some(store.jobs[id].epoch);
      }
    }

    method Renew(id: nat, epoch: nat, now: Time, leaseUntil: Time) returns (ok: bool)
      modifies store
      ensures Effect(store.jobs, ok) == Apply(old(store.jobs), Op.Renew(id, owner, epoch, now, leaseUntil))
    {
      ok := id < |store.jobs| && Holds(store.jobs[id], owner, epoch, now);
      if ok {
        store.jobs := store.jobs[id := store.jobs[id].(leaseUntil := leaseUntil)];
      }
    }

    method Output(id: nat, epoch: nat, now: Time, value: string) returns (ok: bool)
      modifies store
      ensures Effect(store.jobs, ok) == Apply(old(store.jobs), Op.Output(id, owner, epoch, now, value))
    {
      ok := id < |store.jobs| && Holds(store.jobs[id], owner, epoch, now);
      if ok {
        var job := store.jobs[id];
        var item := Item(job.cursor + 1, value);
        if |value| > OUTPUT_LIMIT {
          item := item.(value := value[..OUTPUT_LIMIT] + CUT_NOTE);
        }
        var items := job.output + [item];
        if |items| > WINDOW {
          items := items[|items| - WINDOW..];
        }
        store.jobs := store.jobs[id := job.(output := items, cursor := job.cursor + 1)];
      }
    }

    method Finish(id: nat, epoch: nat, now: Time, result: string, raised: Option<string>) returns (ok: bool)
      modifies store
      ensures Effect(store.jobs, ok) == Apply(old(store.jobs), Op.Finish(id, owner, epoch, now, result, raised))
    {
      ok := id < |store.jobs| && Holds(store.jobs[id], owner, epoch, now);
      if ok {
        store.jobs := store.jobs[id := Finished(store.jobs[id], result, raised)];
      }
    }

    /** Pause and cancel cascade; resume hands the job straight to the dispatching registry. */
    method Control(id: nat, action: Action, provided: bool, leaseUntil: Time) returns (ok: bool)
      requires Forest(store.jobs)
      modifies store
      ensures Effect(store.jobs, ok) == Apply(old(store.jobs), Op.Control(id, owner, action, provided, leaseUntil))
    {
      if id >= |store.jobs| || !Controllable(store.jobs[id], action, provided) {
        return false;
      }
      if action.Resume? {
        store.jobs := store.jobs[id := Controlled(store.jobs[id], Pending)];
        var epoch := Claim(id, 0.0, leaseUntil);
        ok := epoch.Some?;
      } else {
        ok := ControlTree(id, Target(action));
      }
    }

    /** What a driver does when it finds its lease revoked: it only marks a job that is still its own. */
    method HandleInterrupt(id: nat, epoch: nat, control: Option<Status>) returns (own: bool)
      modifies store
      ensures Effect(store.jobs, own) == Apply(old(store.jobs), Op.Interrupt(id, owner, epoch, control))
    {
      own := id < |store.jobs| && store.jobs[id].status == Running && store.jobs[id].epoch == epoch
             && store.jobs[id].owner == owner;
      if own {
        var status := if control == Some(Paused) || control == Some(Cancelled) then control.value else Interrupted;
        store.jobs := store.jobs[id := store.jobs[id].(status := status, leaseUntil := 0.0)];
      }
    }

    method Recover(clock: nat -> Time, alive: nat -> bool)
      modifies store
      ensures store.jobs == Apply(old(store.jobs), Op.Recover(clock, alive)).jobs
    {
      for j := 0 to |store.jobs|
        invariant |store.jobs| == |old(store.jobs)|
        invariant forall k | 0 <= k < |store.jobs| ::
                    store.jobs[k]
                    == if k < j then Recovered(old(store.jobs)[k], clock(k), alive(k)) else old(store.jobs)[k]
      {
        if Expired(store.jobs[j], clock(j), alive(j)) {
          store.jobs := store.jobs[j := Recovered(store.jobs[j], clock(j), alive(j))];
        }
      }
    }
  }
}
