/**
 The event-sourced follow-up queue (src/lightworker/message_queue.py): the queue is what folding the
 session's events gives, and it behaves like a simple list of items.
 */
module MessageQueue {

  datatype Status = Pending | Running | Completed | Guided | Failed | Cancelled

  datatype Item = Item(id: string, message: string, status: Status, key: string)

  /** The queue events of the session; every other event is `Foreign`. */
  datatype Event =
    | Enqueued(item: Item)
    | Claimed(id: string)
    | Released(id: string)
    | Finished(id: string, failed: bool)
    | GuidedBy(id: string)
    | CancelledBy(id: string)
    | Reordered(ids: seq<string>)
    | MigrationStarted
    | MigrationCompleted
    | Foreign

  // ---------- The fold, as the source performs it ----------

  /** The two locals of `_project`. */
  datatype Fold = Fold(ordered: seq<string>, byId: map<string, Item>)

  const EMPTY := Fold([], map[])

  function Without(ids: seq<string>, gone: seq<string>): seq<string> {
    if ids == [] then
      []
    else
      var last := ids[|ids| - 1];
      var before := Without(ids[..|ids| - 1], gone);
      if last in gone then before else before + [last]
  }

  function WithStatus(byId: map<string, Item>, id: string, status: Status): map<string, Item> {
    if id in byId then byId[id := byId[id].(status := status)] else byId
  }

  function Folded(f: Fold, event: Event): Fold {
    match event
    case Enqueued(item) =>
      if item.id == "" then f
      else Fold(if item.id in f.byId then f.ordered else f.ordered + [item.id], f.byId[item.id := item])
    case Claimed(id) => f.(byId := WithStatus(f.byId, id, Running))
    case Released(id) => f.(byId := WithStatus(f.byId, id, Pending))
    case Finished(id, failed) => f.(byId := WithStatus(f.byId, id, if failed then Failed else Completed))
    case GuidedBy(id) => f.(byId := WithStatus(f.byId, id, Guided))
    case CancelledBy(id) => f.(byId := WithStatus(f.byId, id, Cancelled))
    case Reordered(ids) => f.(ordered := Without(f.ordered, ids) + ids)
    case _ => f
  }

  function FoldAll(log: seq<Event>): Fold {
    if log == [] then EMPTY else Folded(FoldAll(log[..|log| - 1]), log[|log| - 1])
  }

  /** What keeps the last line of `_project` from raising, and the ids distinct. */
  ghost predicate Good(f: Fold) {
    && (forall i, j | 0 <= i < j < |f.ordered| :: f.ordered[i] != f.ordered[j])
    && (forall id :: id in f.ordered <==> id in f.byId)
    && (forall id | id in f.byId :: f.byId[id].id == id != "")
  }

  function Listed(f: Fold): (items: seq<Item>)
    requires Good(f)
    ensures |items| == |f.ordered|
  {
    seq(|f.ordered|, i requires 0 <= i < |f.ordered| => assert f.ordered[i] in f.ordered; f.byId[f.ordered[i]])
  }

  // ---------- The list machine ----------

  function IdsOf(items: seq<Item>): (ids: seq<string>)
    ensures |ids| == |items|
  {
    seq(|items|, i requires 0 <= i < |items| => items[i].id)
  }

  predicate Has(items: seq<Item>, id: string) {
    exists i | 0 <= i < |items| :: items[i].id == id
  }

  function Marked(items: seq<Item>, id: string, status: Status): (r: seq<Item>)
    ensures |r| == |items|
  {
    seq(|items|, i requires 0 <= i < |items| => if items[i].id == id then items[i].(status := status) else items[i])
  }

  function Select(items: seq<Item>, pending: bool): (r: seq<Item>)
    ensures forall i | 0 <= i < |r| :: r[i] in items && (r[i].status.Pending? <==> pending)
  {
    if items == [] then
      []
    else
      var last := items[|items| - 1];
      var before := Select(items[..|items| - 1], pending);
      if last.status.Pending? == pending then before + [last] else before
  }

  /** The first pending item's id, "" when nothing is pending. */
  function FirstPending(items: seq<Item>): (id: string) {
    if items == [] then ""
    else if items[0].status.Pending? then items[0].id
    else FirstPending(items[1..])
  }

  predicate AnyRunning(items: seq<Item>) {
    exists i | 0 <= i < |items| :: items[i].status.Running?
  }

  predicate CanClaim(items: seq<Item>, id: string) {
    !AnyRunning(items) && FirstPending(items) == id != ""
  }

  predicate HasStatus(items: seq<Item>, id: string, status: Status) {
    exists i | 0 <= i < |items| :: items[i].id == id && items[i].status == status
  }

  /** Exactly the pending ids, each once. */
  predicate Reorders(items: seq<Item>, ids: seq<string>) {
    && (forall i, j | 0 <= i < j < |ids| :: ids[i] != ids[j])
    && (forall i | 0 <= i < |ids| :: HasStatus(items, ids[i], Pending))
    && (forall i | 0 <= i < |items| && items[i].status.Pending? :: items[i].id in ids)
  }

  // ---------- The invariant of the list ----------

  /** Distinct ids, at most one running item, and it precedes every pending one. */
  ghost predicate Valid(items: seq<Item>) {
    && (forall i, j | 0 <= i < j < |items| :: items[i].id != items[j].id)
    && (forall i | 0 <= i < |items| :: items[i].id != "")
    && (forall i, j | 0 <= i < j < |items| && items[j].status.Running? ::
          !items[i].status.Running? && !items[i].status.Pending?)
  }

  lemma {:induction false} FirstPendingFacts(items: seq<Item>)
    ensures FirstPending(items) == "" || HasStatus(items, FirstPending(items), Pending)
    ensures forall k | 0 <= k < |items| && items[k].status.Pending?
                       && (forall i | 0 <= i < k :: !items[i].status.Pending?) ::
              FirstPending(items) == items[k].id
    ensures (forall k | 0 <= k < |items| :: !items[k].status.Pending?) ==> FirstPending(items) == ""
  {
    if items != [] && !items[0].status.Pending? {
      FirstPendingFacts(items[1..]);
      if FirstPending(items[1..]) != "" {
        var rest := items[1..];
        var i :| 0 <= i < |rest| && rest[i].id == FirstPending(rest) && rest[i].status == Pending;
        assert items[i + 1].id == FirstPending(items);
      }
      forall k | 0 <= k < |items| && items[k].status.Pending? && (forall i | 0 <= i < k :: !items[i].status.Pending?)
        ensures FirstPending(items) == items[k].id
      {
        assert items[1..][k - 1] == items[k];
        assert forall i | 0 <= i < k - 1 :: items[1..][i] == items[i + 1];
      }
    }
  }

  /** The claimed item is the first pending one, so it precedes all that stay pending. */
  lemma ClaimKeepsValid(items: seq<Item>, id: string)
    requires Valid(items) && CanClaim(items, id)
    ensures Valid(Marked(items, id, Running))
  {
    FirstPendingFacts(items);
    var k :| 0 <= k < |items| && items[k].id == id && items[k].status == Pending;
    if i :| 0 <= i < k && items[i].status.Pending? {
      var least := LeastPending(items, i);
      assert false;
    }
  }

  /** The least pending position up to `i` is where the first pending item is. */
  lemma {:induction false} LeastPending(items: seq<Item>, i: nat) returns (k: nat)
    requires i < |items| && items[i].status.Pending?
    ensures k <= i && items[k].status.Pending? && forall j | 0 <= j < k :: !items[j].status.Pending?
    ensures FirstPending(items) == items[k].id
  {
    if j :| 0 <= j < i && items[j].status.Pending? {
      k := LeastPending(items, j);
    } else {
      k := i;
      FirstPendingFacts(items);
    }
  }

  /** The next item to be claimed after a release is the released one. */
  lemma ReleasedIsNext(items: seq<Item>, id: string)
    requires Valid(items) && HasStatus(items, id, Running)
    ensures Valid(Marked(items, id, Pending))
    ensures CanClaim(Marked(items, id, Pending), id)
  {
    var released := Marked(items, id, Pending);
    var k :| 0 <= k < |items| && items[k].id == id && items[k].status == Running;
    var least := LeastPending(released, k);
    assert least == k;
    forall i | 0 <= i < |items| ensures !released[i].status.Running? {
      if i < k {
        assert items[i].id != items[k].id;
      }
    }
  }
}
