/** A log of the side effects a resumable program has started, and what "at most once" means for it. */
module StartLog {

  /** What came of a start: nothing was heard of it, or the reply. */
  datatype Outcome<+V> = Unheard | Succeeded(value: V) | Failed | FailedReading | NeedsApproval

  /** A tool was started for the step at this position. */
  datatype Mark<+V> = Mark(position: nat, outcome: Outcome<V>) {
    /** The start may be repeated: nothing was done, or the tool only reads. */
    predicate Cleared() {
      outcome.NeedsApproval? || outcome.FailedReading?
    }
  }

  /** The positions whose start counts, in order of starting. */
  function Started<V>(log: seq<Mark<V>>): seq<nat> {
    if log == [] then
      []
    else
      var last, before := log[|log| - 1], Started(log[..|log| - 1]);
      if last.Cleared() then before else before + [last.position]
  }

  function UpTo(n: nat): (r: seq<nat>)
    ensures |r| == n && forall i | 0 <= i < n :: r[i] == i
  {
    seq(n, i => i)
  }

  /** Every start is for the first position that has not been started yet. */
  ghost predicate Orderly<V>(log: seq<Mark<V>>) {
    forall t | 0 <= t < |log| :: Started(log[..t]) == UpTo(log[t].position)
  }

  lemma {:induction false} StartedGrows<V>(log: seq<Mark<V>>, t: nat, u: nat)
    requires t <= u <= |log|
    ensures Started(log[..t]) <= Started(log[..u])
  {
    if t < u {
      StartedGrows(log, t, u - 1);
      assert log[..u][..u - 1] == log[..u - 1];
    }
  }

  /** At most once: of two starts of the same position, the earlier one was cleared. */
  ghost predicate NoRepeat<V>(log: seq<Mark<V>>) {
    forall t, u | 0 <= t < u < |log| && log[t].position == log[u].position :: log[t].Cleared()
  }

  lemma OrderlyMeansNoRepeat<V>(log: seq<Mark<V>>)
    requires Orderly(log)
    ensures NoRepeat(log)
  {
    forall t, u | 0 <= t < u < |log| && log[t].position == log[u].position ensures log[t].Cleared() {
      StartedAtMostOnce(log, t, u);
    }
  }

  lemma StartedAtMostOnce<V>(log: seq<Mark<V>>, t: nat, u: nat)
    requires Orderly(log) && t < u < |log| && log[t].position == log[u].position
    ensures log[t].Cleared()
  {
    if !log[t].Cleared() {
      assert log[..t + 1][..t] == log[..t];
      assert |Started(log[..t + 1])| == |Started(log[..t])| + 1;
      StartedGrows(log, t + 1, u);
    }
  }

  lemma StartKeepsOrder<V>(log: seq<Mark<V>>, mark: Mark<V>)
    requires Orderly(log) && Started(log) == UpTo(mark.position)
    ensures Orderly(log + [mark])
    ensures Started(log + [mark]) == if mark.Cleared() then Started(log) else UpTo(mark.position + 1)
  {
    var log' := log + [mark];
    assert log'[..|log|] == log;
    forall t | 0 <= t < |log'| ensures Started(log'[..t]) == UpTo(log'[t].position) {
      if t < |log| {
        assert log'[..t] == log[..t];
      }
    }
  }

  /** The last start is for position `n`, and counts; its outcome may still change. */
  ghost predicate JustStarted<V>(log: seq<Mark<V>>, n: nat) {
    && log != [] && log[|log| - 1].position == n && !log[|log| - 1].Cleared()
    && Orderly(log[..|log| - 1]) && Started(log[..|log| - 1]) == UpTo(n)
  }

  /** The reply to the last start. */
  function SetLast<V>(log: seq<Mark<V>>, outcome: Outcome<V>): seq<Mark<V>>
    requires log != []
  {
    log[|log| - 1 := log[|log| - 1].(outcome := outcome)]
  }

  /** A reply that clears the last start makes its position the next one again; any other leaves it started. */
  lemma JustStartedFacts<V>(log: seq<Mark<V>>, n: nat, outcome: Outcome<V>)
    requires JustStarted(log, n)
    ensures Orderly(log) && Started(log) == UpTo(n + 1)
    ensures Orderly(SetLast(log, outcome))
    ensures if Mark(n, outcome).Cleared() then Started(SetLast(log, outcome)) == UpTo(n)
            else JustStarted(SetLast(log, outcome), n)
  {
    var before, last := log[..|log| - 1], log[|log| - 1];
    StartKeepsOrder(before, last);
    StartKeepsOrder(before, Mark(n, outcome));
    assert log == before + [last];
    assert SetLast(log, outcome) == before + [Mark(n, outcome)];
  }

  lemma StartIsJustStarted<V>(log: seq<Mark<V>>, n: nat)
    requires Orderly(log) && Started(log) == UpTo(n)
    ensures JustStarted(log + [Mark(n, Unheard)], n)
  {
    assert (log + [Mark(n, Unheard)])[..|log|] == log;
  }
}
