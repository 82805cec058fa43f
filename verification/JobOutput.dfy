/**
 The bounded output of a job (src/lightworker/jobs.py): a window of 64 entries over everything the job
 ever published, and the cursors with which a reader follows it.
 */
module JobOutput {
  import opened Prelude
  import opened Jobs

  /** The last 64 values of the log in the form in which they are kept, each with its place in the log as cursor. */
  function Window(log: seq<string>): (w: seq<Item>)
    ensures |w| == Min(WINDOW, |log|)
  {
    var dropped := Max(0, |log| - WINDOW);
    seq(|log| - dropped, i requires 0 <= i < |log| - dropped => Item(dropped + i + 1, Kept(log[dropped + i])))
  }

  /** Everything job `j` has published in a run: the values of the successful outputs, in order. */
  function Log(ops: seq<Op>, j: nat): seq<string> {
    if ops == [] then
      []
    else
      var last := |ops| - 1;
      Logged(After(ops[..last]), ops[last], j, Log(ops[..last], j))
  }

  function Logged(jobs: seq<Job>, op: Op, j: nat, log: seq<string>): seq<string> {
    if op.Output? && op.id == j && Apply(jobs, op).ok then log + [op.value] else log
  }

  /** The job holds exactly the window over the log, and its cursor is the log's length. */
  predicate Mirrors(jobs: seq<Job>, j: nat, log: seq<string>) {
    if j < |jobs| then jobs[j].output == Window(log) && jobs[j].cursor == |log| else log == []
  }

  lemma PublishedWindow(log: seq<string>, value: string, job: Job)
    requires job.output == Window(log) && job.cursor == |log|
    ensures Published(job, value).output == Window(log + [value])
    ensures Published(job, value).cursor == |log + [value]|
  {
  }

  /** Only an output changes a job's window and cursor. */
  lemma ApplyKeepsOutput(jobs: seq<Job>, op: Op, j: nat)
    requires j < |jobs|
    ensures var after := Apply(jobs, op).jobs;
            if op.Output? && op.id == j && Apply(jobs, op).ok then
              after[j] == Published(jobs[j], op.value)
            else
              after[j].output == jobs[j].output && after[j].cursor == jobs[j].cursor
  {
    match op
    case Create(_, _, _) =>
    case Claim(_, _, _, _) =>
    case Renew(_, _, _, _, _) =>
    case Output(_, _, _, _, _) =>
    case Finish(_, _, _, _, _, _) =>
    case Control(_, _, _, _, _) =>
    case Recover(_, _) =>
    case Interrupt(_, _, _, _) =>
  }

  lemma ApplyKeepsMirror(jobs: seq<Job>, op: Op, j: nat, log: seq<string>)
    requires Mirrors(jobs, j, log)
    ensures Mirrors(Apply(jobs, op).jobs, j, Logged(jobs, op, j, log))
  {
    if j < |jobs| {
      ApplyKeepsOutput(jobs, op, j);
      ApplyAdvancesOne(jobs, op, j);
      if op.Output? {
        PublishedWindow(log, op.value, jobs[j]);
      }
    } else if j < |Apply(jobs, op).jobs| {
      NewJobsAreSilent(jobs, op, j);
    }
  }

  lemma NewJobsAreSilent(jobs: seq<Job>, op: Op, j: nat)
    requires |jobs| <= j < |Apply(jobs, op).jobs|
    ensures Apply(jobs, op).jobs[j].output == [] && Apply(jobs, op).jobs[j].cursor == 0
  {
  }

  /** In every run, a job holds exactly the window over its log, and its cursor is the log's length. */
  lemma {:induction false} OutputRefinesLog(ops: seq<Op>, j: nat)
    ensures Mirrors(After(ops), j, Log(ops, j))
  {
    if ops != [] {
      var last := |ops| - 1;
      OutputRefinesLog(ops[..last], j);
      ApplyKeepsMirror(After(ops[..last]), ops[last], j, Log(ops[..last], j));
    }
  }

  /** `job_output`: the entries after a cursor, and how many of the first entries are gone. */
  datatype Page = Page(items: seq<Item>, droppedBefore: nat)

  function Newer(items: seq<Item>, after: int): seq<Item> {
    if items == [] then
      []
    else
      (if items[0].cursor > after then [items[0]] else []) + Newer(items[1..], after)
  }

  function DroppedBefore(items: seq<Item>): int {
    if items == [] then 0 else items[0].cursor - 1
  }

  method ReadOutput(job: Job, after: int) returns (items: seq<Item>, droppedBefore: int)
    ensures items == Newer(job.output, after) && droppedBefore == DroppedBefore(job.output)
  {
    droppedBefore := if job.output == [] then 0 else job.output[0].cursor - 1;
    items := [];
    for i := 0 to |job.output|
      invariant items + Newer(job.output[i..], after) == Newer(job.output, after)
    {
      var item := job.output[i];
      assert job.output[i..] == [item] + job.output[i + 1..];
      ghost var rest := Newer(job.output[i + 1..], after);
      Associative(items, [item], rest);
      if item.cursor > after {
        items := items + [item];
      }
    }
  }

  /** The log from position `from` on, as items. */
  function Entries(log: seq<string>, from: nat): seq<Item>
    requires from <= |log|
  {
    seq(|log| - from, i requires 0 <= i < |log| - from => Item(from + i + 1, Kept(log[from + i])))
  }

  lemma {:induction false} NewerEntries(log: seq<string>, from: nat, after: nat)
    requires from <= |log| && after <= |log|
    ensures Newer(Entries(log, from), after) == Entries(log, Max(from, after))
    decreases |log| - from
  {
    if from < |log| {
      NewerEntries(log, from + 1, after);
      assert Entries(log, from)[1..] == Entries(log, from + 1);
    }
  }

  /** What a page holds: every entry after the cursor that is still there, and the number that are not. */
  lemma PageOfLog(log: seq<string>, after: nat)
    requires after <= |log|
    ensures DroppedBefore(Window(log)) == Max(0, |log| - WINDOW)
    ensures Newer(Window(log), after) == Entries(log, Max(after, DroppedBefore(Window(log))))
  {
    var dropped := Max(0, |log| - WINDOW);
    assert Window(log) == Entries(log, dropped);
    NewerEntries(log, dropped, after);
  }

  /** A reader that polls with its last cursor, keeps what it gets and counts what it learns it missed. */
  datatype Reader = Reader(last: nat, received: seq<Item>, missed: nat)

  function Poll(reader: Reader, items: seq<Item>): Reader {
    var news := Newer(items, reader.last);
    var missed := Max(0, DroppedBefore(items) - reader.last);
    Reader(reader.last + missed + |news|, reader.received + news, reader.missed + missed)
  }

  predicate IsEntry(item: Item, log: seq<string>, last: nat) {
    0 < item.cursor <= last <= |log| && item.value == Kept(log[item.cursor - 1])
  }

  predicate Growing(items: seq<Item>) {
    forall i, k | 0 <= i < k < |items| :: items[i].cursor < items[k].cursor
  }

  /** The reader's items are log entries with growing cursors, and it knows how many are not among them. */
  ghost predicate Follows(reader: Reader, log: seq<string>) {
    && reader.last == |reader.received| + reader.missed <= |log|
    && (forall i | 0 <= i < |reader.received| :: IsEntry(reader.received[i], log, reader.last))
    && Growing(reader.received)
  }

  lemma GrowingTogether(a: seq<Item>, b: seq<Item>, from: nat)
    requires Growing(a) && forall i | 0 <= i < |a| :: a[i].cursor <= from
    requires Growing(b) && forall i | 0 <= i < |b| :: b[i].cursor > from
    ensures Growing(a + b)
  {
  }

  lemma EntriesFollow(reader: Reader, log: seq<string>, from: nat)
    requires Follows(reader, log) && reader.last <= from <= |log|
    ensures Follows(Reader(|log|, reader.received + Entries(log, from), reader.missed + from - reader.last), log)
  {
    var news, n := Entries(log, from), |reader.received|;
    GrowingTogether(reader.received, news, from);
    forall i | 0 <= i < n + |news| ensures IsEntry((reader.received + news)[i], log, |log|) {
      if i < n {
        assert IsEntry(reader.received[i], log, reader.last);
      } else {
        assert IsEntry(news[i - n], log, |log|);
      }
    }
  }

  lemma PollReads(reader: Reader, log: seq<string>)
    requires reader.last <= |log|
    ensures
      var from := Max(reader.last, |log| - WINDOW);
      var received := reader.received + Entries(log, from);
      Poll(reader, Window(log)) == Reader(|log|, received, reader.missed + from - reader.last)
  {
    PageOfLog(log, reader.last);
  }

  /**
   A poll brings the reader up to the end of the log: it has every entry once and in order, except
   those it knows to be lost.  Nothing is lost when at most 64 entries were published since.
   */
  lemma PollCatchesUp(reader: Reader, log: seq<string>)
    requires Follows(reader, log)
    ensures Follows(Poll(reader, Window(log)), log)
    ensures Poll(reader, Window(log)).last == |log|
    ensures |log| - reader.last <= WINDOW ==> Poll(reader, Window(log)).missed == reader.missed
  {
    PollReads(reader, log);
    EntriesFollow(reader, log, Max(reader.last, |log| - WINDOW));
  }

  /** What a reader has followed so far it still follows when the log has grown. */
  lemma FollowsLonger(reader: Reader, log: seq<string>, log': seq<string>)
    requires Follows(reader, log) && log <= log'
    ensures Follows(reader, log')
  {
  }

  lemma {:induction false} LogGrows(ops: seq<Op>, i: nat, j: nat)
    requires i <= |ops|
    ensures Log(ops[..i], j) <= Log(ops, j)
    decreases |ops| - i
  {
    if i < |ops| {
      LogGrows(ops, i + 1, j);
      assert ops[..i + 1][..i] == ops[..i];
    } else {
      assert ops[..i] == ops;
    }
  }

  /** The reader after polling job `j` at the given points of a run. */
  function Polled(ops: seq<Op>, j: nat, times: seq<nat>): Reader
    requires forall t | 0 <= t < |times| :: times[t] <= |ops| && j < |After(ops[..times[t]])|
  {
    if times == [] then
      Reader(0, [], 0)
    else
      var last := times[|times| - 1];
      Poll(Polled(ops, j, times[..|times| - 1]), After(ops[..last])[j].output)
  }

  /** Over a whole run, however often the reader polls, it gets each entry once or learns of its loss. */
  lemma {:induction false} ReaderFollowsRun(ops: seq<Op>, j: nat, times: seq<nat>)
    requires forall t | 0 <= t < |times| :: times[t] <= |ops| && j < |After(ops[..times[t]])|
    requires forall t, u | 0 <= t < u < |times| :: times[t] <= times[u]
    ensures times == [] ==> Polled(ops, j, times) == Reader(0, [], 0)
    ensures times != [] ==>
              var log := Log(ops[..times[|times| - 1]], j);
              Follows(Polled(ops, j, times), log) && Polled(ops, j, times).last == |log|
  {
    if times != [] {
      var before, now := times[..|times| - 1], times[|times| - 1];
      ReaderFollowsRun(ops, j, before);
      var log := Log(ops[..now], j);
      if before != [] {
        var then_ := before[|before| - 1];
        LogGrows(ops[..now], then_, j);
        assert ops[..now][..then_] == ops[..then_];
        FollowsLonger(Polled(ops, j, before), Log(ops[..then_], j), log);
      }
      OutputRefinesLog(ops[..now], j);
      PollCatchesUp(Polled(ops, j, before), log);
    }
  }
}
