/** The event-sourced queue refines the list machine, operation by operation and over whole runs. */
module QueueRefinement {
  import opened MessageQueue

  datatype Op =
    | Enqueue(id: string, message: string, key: string)
    | Claim(id: string)
    | Release(id: string)
    | Complete(id: string, failed: bool)
    | Guide(id: string)
    | Cancel(id: string)
    | Reorder(ids: seq<string>)

  predicate HasKey(items: seq<Item>, key: string) {
    key != "" && exists i | 0 <= i < |items| :: items[i].key == key
  }

  /** Whether the operation appends its event. */
  predicate Accepts(items: seq<Item>, op: Op) {
    match op
    case Enqueue(_, _, key) => !HasKey(items, key)
    case Claim(id) => CanClaim(items, id)
    case Release(id) => Has(items, id)
    case Complete(id, _) => Has(items, id)
    case Guide(id) => HasStatus(items, id, Pending)
    case Cancel(id) => HasStatus(items, id, Pending)
    case Reorder(ids) => Reorders(items, ids)
  }

  function EventOf(op: Op): Event {
    match op
    case Enqueue(id, message, key) => Enqueued(Item(id, message, Pending, key))
    case Claim(id) => Claimed(id)
    case Release(id) => Released(id)
    case Complete(id, failed) => Finished(id, failed)
    case Guide(id) => GuidedBy(id)
    case Cancel(id) => CancelledBy(id)
    case Reorder(ids) => Reordered(ids)
  }

  function Lookup(items: seq<Item>, id: string): (item: Item)
    requires Has(items, id)
    ensures item in items && item.id == id
  {
    if items[0].id == id then items[0] else Lookup(items[1..], id)
  }

  /** The items a reorder puts at the end. */
  function Moved(items: seq<Item>, ids: seq<string>): (moved: seq<Item>)
    requires forall i | 0 <= i < |ids| :: Has(items, ids[i])
    ensures |moved| == |ids| && forall i | 0 <= i < |ids| :: moved[i].id == ids[i] && moved[i] in items
  {
    seq(|ids|, i requires 0 <= i < |ids| => Lookup(items, ids[i]))
  }

  /** The list machine: status changes in place, new items at the end, a reorder only among the pending. */
  function Listing(items: seq<Item>, op: Op): seq<Item>
    requires Accepts(items, op)
  {
    match op
    case Enqueue(id, message, key) => items + [Item(id, message, Pending, key)]
    case Claim(id) => Marked(items, id, Running)
    case Release(id) => Marked(items, id, Pending)
    case Complete(id, failed) => Marked(items, id, if failed then Failed else Completed)
    case Guide(id) => Marked(items, id, Guided)
    case Cancel(id) => Marked(items, id, Cancelled)
    case Reorder(ids) => Select(items, false) + Moved(items, ids)
  }

  /** What the callers keep to: fresh ids, releases of running items, completions of active ones. */
  ghost predicate Disciplined(items: seq<Item>, op: Op) {
    match op
    case Enqueue(id, _, _) => id != "" && !Has(items, id)
    case Release(id) => HasStatus(items, id, Running)
    case Complete(id, _) => HasStatus(items, id, Running) || HasStatus(items, id, Pending)
    case _ => true
  }

  // ---------- One operation ----------

  lemma MarkRefines(f: Fold, id: string, status: Status)
    requires Good(f)
    ensures Good(f.(byId := WithStatus(f.byId, id, status)))
    ensures Listed(f.(byId := WithStatus(f.byId, id, status))) == Marked(Listed(f), id, status)
  {
    assert forall i | 0 <= i < |f.ordered| :: f.ordered[i] in f.ordered;
  }

  lemma EnqueueRefines(f: Fold, item: Item)
    requires Good(f) && item.id != "" && item.id !in f.byId
    ensures Good(Folded(f, Enqueued(item)))
    ensures Listed(Folded(f, Enqueued(item))) == Listed(f) + [item]
  {
    var g := Folded(f, Enqueued(item));
    assert item.id !in f.ordered;
    assert forall i | 0 <= i < |f.ordered| :: f.ordered[i] in f.ordered && g.ordered[i] == f.ordered[i];
    assert forall i | 0 <= i < |f.ordered| :: Listed(g)[i] == Listed(f)[i];
  }

  lemma ListedHas(f: Fold, id: string)
    requires Good(f)
    ensures Has(Listed(f), id) <==> id in f.byId
    ensures Has(Listed(f), id) ==> Lookup(Listed(f), id) == f.byId[id]
  {
    if id in f.byId {
      var i :| 0 <= i < |f.ordered| && f.ordered[i] == id;
      assert Listed(f)[i].id == id;
    }
    if Has(Listed(f), id) {
      var item := Lookup(Listed(f), id);
      var i :| 0 <= i < |f.ordered| && Listed(f)[i] == item;
      assert f.ordered[i] in f.ordered;
    }
  }

  function ItemsAt(byId: map<string, Item>, ids: seq<string>): seq<Item>
    requires forall i | 0 <= i < |ids| :: ids[i] in byId
  {
    seq(|ids|, i requires 0 <= i < |ids| => byId[ids[i]])
  }

  /** Dropping the pending ids from the order is keeping the items that are not pending. */
  lemma {:induction false} WithoutIsSelect(byId: map<string, Item>, ordered: seq<string>, gone: seq<string>)
    requires forall i | 0 <= i < |ordered| :: ordered[i] in byId
    requires forall i | 0 <= i < |ordered| :: ordered[i] in gone <==> byId[ordered[i]].status.Pending?
    ensures forall i | 0 <= i < |Without(ordered, gone)| ::
              Without(ordered, gone)[i] in ordered && Without(ordered, gone)[i] !in gone
    ensures forall id | id in ordered && id !in gone :: id in Without(ordered, gone)
    ensures ItemsAt(byId, Without(ordered, gone)) == Select(ItemsAt(byId, ordered), false)
  {
    if ordered != [] {
      var init := ordered[..|ordered| - 1];
      WithoutIsSelect(byId, init, gone);
      assert ItemsAt(byId, ordered)[..|ordered| - 1] == ItemsAt(byId, init);
    }
  }

  lemma {:induction false} WithoutDistinct(ordered: seq<string>, gone: seq<string>)
    requires forall i, j | 0 <= i < j < |ordered| :: ordered[i] != ordered[j]
    ensures forall i | 0 <= i < |Without(ordered, gone)| :: Without(ordered, gone)[i] in ordered
    ensures forall i, j | 0 <= i < j < |Without(ordered, gone)| ::
              Without(ordered, gone)[i] != Without(ordered, gone)[j]
  {
    if ordered != [] {
      WithoutDistinct(ordered[..|ordered| - 1], gone);
    }
  }

  /** In a good fold, an accepted reorder names exactly the ids whose items are pending. */
  lemma ReorderNamesPending(f: Fold, ids: seq<string>)
    requires Good(f) && Reorders(Listed(f), ids)
    ensures forall k | 0 <= k < |ids| :: ids[k] in f.byId && f.byId[ids[k]].status.Pending?
    ensures forall i | 0 <= i < |f.ordered| ::
              f.ordered[i] in f.byId && (f.ordered[i] in ids <==> f.byId[f.ordered[i]].status.Pending?)
  {
    var items := Listed(f);
    forall k | 0 <= k < |ids| ensures ids[k] in f.byId && f.byId[ids[k]].status.Pending? {
      var j :| 0 <= j < |items| && items[j].id == ids[k] && items[j].status == Pending;
      assert f.ordered[j] in f.ordered;
    }
    forall i | 0 <= i < |f.ordered|
      ensures f.ordered[i] in f.byId && (f.ordered[i] in ids <==> f.byId[f.ordered[i]].status.Pending?)
    {
      assert f.ordered[i] in f.ordered;
      assert items[i] == f.byId[f.ordered[i]];
    }
  }

  lemma ReorderKeepsMembers(f: Fold, ids: seq<string>)
    requires Good(f) && Reorders(Listed(f), ids)
    ensures forall i | 0 <= i < |Without(f.ordered, ids)| :: Without(f.ordered, ids)[i] !in ids
    ensures forall id :: id in Without(f.ordered, ids) + ids <==> id in f.byId
  {
    ReorderNamesPending(f, ids);
    WithoutIsSelect(f.byId, f.ordered, ids);
    var kept := Without(f.ordered, ids);
    forall id ensures id in kept + ids <==> id in f.byId {
      if id in f.byId && id !in ids {
        assert id in f.ordered;
      }
    }
  }

  lemma ReorderGood(f: Fold, ids: seq<string>)
    requires Good(f) && Reorders(Listed(f), ids)
    ensures Good(Folded(f, Reordered(ids)))
  {
    ReorderKeepsMembers(f, ids);
    WithoutDistinct(f.ordered, ids);
  }

  lemma ItemsAtSplit(byId: map<string, Item>, a: seq<string>, b: seq<string>)
    requires forall i | 0 <= i < |a + b| :: (a + b)[i] in byId
    requires forall i | 0 <= i < |a| :: a[i] in byId
    requires forall i | 0 <= i < |b| :: b[i] in byId
    ensures ItemsAt(byId, a + b) == ItemsAt(byId, a) + ItemsAt(byId, b)
  {
  }

  lemma ListedIsItemsAt(f: Fold)
    requires Good(f)
    ensures forall i | 0 <= i < |f.ordered| :: f.ordered[i] in f.byId
    ensures Listed(f) == ItemsAt(f.byId, f.ordered)
  {
    assert forall i | 0 <= i < |f.ordered| :: f.ordered[i] in f.ordered;
  }

  /** The ids left in the order name the items that are not pending. */
  lemma KeptIsItemsAt(f: Fold, ids: seq<string>)
    requires Good(f) && Reorders(Listed(f), ids)
    ensures forall i | 0 <= i < |Without(f.ordered, ids)| :: Without(f.ordered, ids)[i] in f.byId
    ensures ItemsAt(f.byId, Without(f.ordered, ids)) == Select(Listed(f), false)
  {
    ReorderNamesPending(f, ids);
    ListedIsItemsAt(f);
    WithoutIsSelect(f.byId, f.ordered, ids);
  }

  lemma MovedIsItemsAt(f: Fold, ids: seq<string>)
    requires Good(f) && Reorders(Listed(f), ids)
    ensures forall k | 0 <= k < |ids| :: Has(Listed(f), ids[k]) && ids[k] in f.byId
    ensures Moved(Listed(f), ids) == ItemsAt(f.byId, ids)
  {
    forall k | 0 <= k < |ids|
      ensures Has(Listed(f), ids[k]) && ids[k] in f.byId && Lookup(Listed(f), ids[k]) == f.byId[ids[k]]
    {
      assert HasStatus(Listed(f), ids[k], Pending);
      ListedHas(f, ids[k]);
    }
  }

  lemma ReorderListed(f: Fold, ids: seq<string>)
    requires Good(Folded(f, Reordered(ids)))
    requires forall i | 0 <= i < |Without(f.ordered, ids)| :: Without(f.ordered, ids)[i] in f.byId
    requires forall k | 0 <= k < |ids| :: ids[k] in f.byId
    ensures Listed(Folded(f, Reordered(ids))) == ItemsAt(f.byId, Without(f.ordered, ids)) + ItemsAt(f.byId, ids)
  {
    ListedIsItemsAt(Folded(f, Reordered(ids)));
    ItemsAtSplit(f.byId, Without(f.ordered, ids), ids);
  }

  lemma ReorderRefines(f: Fold, ids: seq<string>)
    requires Good(f) && Reorders(Listed(f), ids)
    ensures Good(Folded(f, Reordered(ids)))
    ensures Listed(Folded(f, Reordered(ids))) == Listing(Listed(f), Reorder(ids))
  {
    ReorderGood(f, ids);
    KeptIsItemsAt(f, ids);
    MovedIsItemsAt(f, ids);
    ReorderListed(f, ids);
    assert Listing(Listed(f), Reorder(ids)) == Select(Listed(f), false) + Moved(Listed(f), ids);
  }

  /** Appending the event of an accepted operation does to the fold what the operation does to the list. */
  lemma EventRefinesListing(f: Fold, op: Op)
    requires Good(f) && Accepts(Listed(f), op)
    requires op.Enqueue? ==> op.id != "" && !Has(Listed(f), op.id)
    ensures Good(Folded(f, EventOf(op)))
    ensures Listed(Folded(f, EventOf(op))) == Listing(Listed(f), op)
  {
    match op
    case Enqueue(id, message, key) =>
      ListedHas(f, id);
      EnqueueRefines(f, Item(id, message, Pending, key));
    case Claim(id) => MarkRefines(f, id, Running);
    case Release(id) => MarkRefines(f, id, Pending);
    case Complete(id, failed) => MarkRefines(f, id, if failed then Failed else Completed);
    case Guide(id) => MarkRefines(f, id, Guided);
    case Cancel(id) => MarkRefines(f, id, Cancelled);
    case Reorder(ids) => ReorderRefines(f, ids);
  }

  // ---------- The list machine's invariant ----------

  ghost predicate SameIds(before: seq<Item>, after: seq<Item>) {
    forall id :: Has(before, id) <==> Has(after, id)
  }

  ghost predicate DistinctItems(items: seq<Item>) {
    forall i, j | 0 <= i < j < |items| :: items[i].id != items[j].id
  }

  ghost predicate AtMostOneRunning(items: seq<Item>) {
    forall i, j | 0 <= i < j < |items| && items[j].status.Running? :: !items[i].status.Running?
  }

  lemma {:induction false} SelectDistinct(items: seq<Item>, pending: bool)
    requires DistinctItems(items)
    ensures DistinctItems(Select(items, pending))
  {
    if items != [] {
      var init, last := items[..|items| - 1], items[|items| - 1];
      SelectDistinct(init, pending);
      forall r | r in Select(init, pending) ensures r.id != last.id {
        assert r in init;
      }
    }
  }

  lemma {:induction false} SelectOneRunning(items: seq<Item>)
    requires AtMostOneRunning(items)
    ensures AtMostOneRunning(Select(items, false))
  {
    if items != [] {
      var init, last := items[..|items| - 1], items[|items| - 1];
      SelectOneRunning(init);
      forall r | r in Select(init, false) && last.status.Running? ensures !r.status.Running? {
        assert r in init;
      }
    }
  }

  lemma {:induction false} SelectComplete(items: seq<Item>, item: Item)
    requires item in items
    ensures item in Select(items, item.status.Pending?)
  {
    var init, last := items[..|items| - 1], items[|items| - 1];
    if item != last {
      assert item in init;
      SelectComplete(init, item);
    }
  }

  /** Finished and running items first, then pending ones: such a list is a valid queue. */
  lemma AppendPending(kept: seq<Item>, moved: seq<Item>)
    requires DistinctItems(kept) && AtMostOneRunning(kept) && DistinctItems(moved)
    requires forall k | k in kept :: !k.status.Pending? && k.id != "" && forall m | m in moved :: k.id != m.id
    requires forall m | m in moved :: m.status.Pending? && m.id != ""
    ensures Valid(kept + moved)
  {
    var all := kept + moved;
    forall i, j | 0 <= i < j < |all| ensures all[i].id != all[j].id {
      if i < |kept| <= j {
        assert kept[i] in kept && moved[j - |kept|] in moved;
      }
    }
    assert forall j | |kept| <= j < |all| :: all[j] in moved;
    forall i, j | 0 <= i < j < |all| && all[j].status.Running?
      ensures !all[i].status.Running? && !all[i].status.Pending?
    {
      if j < |kept| {
        assert kept[i] in kept;
      }
    }
    forall i | 0 <= i < |all| ensures all[i].id != "" {
      assert i < |kept| ==> kept[i] in kept;
      assert i >= |kept| ==> moved[i - |kept|] in moved;
    }
  }

  lemma MovedArePending(items: seq<Item>, ids: seq<string>)
    requires Valid(items) && Reorders(items, ids)
    ensures forall k | 0 <= k < |ids| :: Has(items, ids[k])
    ensures forall m | m in Moved(items, ids) :: m in items && m.status.Pending?
    ensures DistinctItems(Moved(items, ids))
  {
    forall k | 0 <= k < |ids| ensures Has(items, ids[k]) && Lookup(items, ids[k]).status.Pending? {
      assert HasStatus(items, ids[k], Pending);
    }
  }

  lemma HasAfterSplit(kept: seq<Item>, moved: seq<Item>, item: Item)
    requires item in kept || item in moved
    ensures Has(kept + moved, item.id)
  {
    if k :| 0 <= k < |kept| && kept[k] == item {
      assert (kept + moved)[k].id == item.id;
    } else {
      var k :| 0 <= k < |moved| && moved[k] == item;
      assert (kept + moved)[|kept| + k].id == item.id;
    }
  }

  lemma ReorderKeepsItem(items: seq<Item>, ids: seq<string>, i: nat)
    requires Valid(items) && Reorders(items, ids) && i < |items|
    ensures items[i] in Listing(items, Reorder(ids)) && Has(Listing(items, Reorder(ids)), items[i].id)
  {
    MovedArePending(items, ids);
    var moved := Moved(items, ids);
    if items[i].status.Pending? {
      var k :| 0 <= k < |ids| && ids[k] == items[i].id;
      assert moved[k] in items && moved[k].id == items[i].id;
      assert moved[k] == items[i];
    } else {
      SelectComplete(items, items[i]);
    }
    HasAfterSplit(Select(items, false), moved, items[i]);
  }

  lemma ReorderBringsNoId(items: seq<Item>, ids: seq<string>, item: Item)
    requires Valid(items) && Reorders(items, ids) && item in Listing(items, Reorder(ids))
    ensures item in items
  {
    MovedArePending(items, ids);
    assert item in Select(items, false) || item in Moved(items, ids);
  }

  lemma KeptAndMovedApart(items: seq<Item>, k: Item, m: Item)
    requires Valid(items) && k in items && m in items && m.status.Pending? && !k.status.Pending?
    ensures k.id != m.id
  {
  }

  lemma ReorderIsValid(items: seq<Item>, ids: seq<string>)
    requires Valid(items) && Reorders(items, ids)
    ensures Valid(Listing(items, Reorder(ids)))
  {
    MovedArePending(items, ids);
    var kept: seq<Item>, moved: seq<Item> := Select(items, false), Moved(items, ids);
    SelectDistinct(items, false);
    SelectOneRunning(items);
    forall k, m | k in kept && m in moved ensures k.id != m.id {
      KeptAndMovedApart(items, k, m);
    }
    AppendPending(kept, moved);
  }

  lemma ReorderKeepsValid(items: seq<Item>, ids: seq<string>)
    requires Valid(items) && Reorders(items, ids)
    ensures Valid(Listing(items, Reorder(ids))) && SameIds(items, Listing(items, Reorder(ids)))
  {
    ReorderIsValid(items, ids);
    var after := Listing(items, Reorder(ids));
    forall id ensures Has(items, id) <==> Has(after, id) {
      if i :| 0 <= i < |items| && items[i].id == id {
        ReorderKeepsItem(items, ids, i);
      }
      if k :| 0 <= k < |after| && after[k].id == id {
        ReorderBringsNoId(items, ids, after[k]);
      }
    }
  }

  lemma MarkedHas(items: seq<Item>, id: string, status: Status)
    ensures SameIds(items, Marked(items, id, status))
  {
    forall x ensures Has(items, x) <==> Has(Marked(items, id, status), x) {
      if i :| 0 <= i < |items| && items[i].id == x {
        assert Marked(items, id, status)[i].id == x;
      }
    }
  }

  lemma SettlingKeepsValid(items: seq<Item>, id: string, status: Status)
    requires Valid(items) && !status.Pending? && !status.Running?
    ensures Valid(Marked(items, id, status)) && SameIds(items, Marked(items, id, status))
    ensures IdsOf(Marked(items, id, status)) == IdsOf(items)
  {
    MarkedHas(items, id, status);
  }

  /**
   Under the callers' discipline every operation keeps the queue's invariant, only an enqueue brings a
   new id, and only a reorder changes the order.
   */
  lemma OperationKeepsValid(items: seq<Item>, op: Op)
    requires Valid(items) && Accepts(items, op) && Disciplined(items, op)
    ensures Valid(Listing(items, op))
    ensures !op.Enqueue? ==> SameIds(items, Listing(items, op))
    ensures !op.Reorder? ==> IdsOf(items) <= IdsOf(Listing(items, op))
  {
    match op
    case Enqueue(_, _, _) =>
    case Claim(id) => ClaimKeepsValid(items, id); MarkedHas(items, id, Running);
    case Release(id) => ReleasedIsNext(items, id); MarkedHas(items, id, Pending);
    case Complete(id, failed) => SettlingKeepsValid(items, id, if failed then Failed else Completed);
    case Guide(id) => SettlingKeepsValid(items, id, Guided);
    case Cancel(id) => SettlingKeepsValid(items, id, Cancelled);
    case Reorder(ids) => ReorderKeepsValid(items, ids);
  }

  // ---------- Whole runs ----------

  /** The list machine after a run; rejected operations do nothing. */
  function Queue(ops: seq<Op>): seq<Item> {
    if ops == [] then
      []
    else
      var items, op := Queue(ops[..|ops| - 1]), ops[|ops| - 1];
      if Accepts(items, op) then Listing(items, op) else items
  }

  /** The session's events after the same run. */
  function LogAfter(ops: seq<Op>): seq<Event> {
    if ops == [] then
      []
    else
      var log, op := LogAfter(ops[..|ops| - 1]), ops[|ops| - 1];
      if Accepts(Queue(ops[..|ops| - 1]), op) then log + [EventOf(op)] else log
  }

  ghost predicate DisciplinedRun(ops: seq<Op>) {
    forall i | 0 <= i < |ops| :: Disciplined(Queue(ops[..i]), ops[i])
  }

  /** After every disciplined run, projecting the events gives the list, and the list is a valid queue. */
  lemma {:induction false} RunRefinesQueue(ops: seq<Op>)
    requires DisciplinedRun(ops)
    ensures Good(FoldAll(LogAfter(ops))) && Listed(FoldAll(LogAfter(ops))) == Queue(ops)
    ensures Valid(Queue(ops))
  {
    if ops != [] {
      var init, op := ops[..|ops| - 1], ops[|ops| - 1];
      assert forall i | 0 <= i < |init| :: init[..i] == ops[..i];
      RunRefinesQueue(init);
      assert Disciplined(Queue(ops[..|ops| - 1]), op);
      if Accepts(Queue(init), op) {
        OperationKeepsValid(Queue(init), op);
        EventRefinesListing(FoldAll(LogAfter(init)), op);
        assert (LogAfter(init) + [EventOf(op)])[..|LogAfter(init)|] == LogAfter(init);
      }
    }
  }

  /** Whether an operation is about the item, or about the order. */
  predicate Concerns(op: Op, id: string) {
    match op
    case Enqueue(_, _, _) => false
    case Reorder(_) => true
    case Claim(x) => x == id
    case Release(x) => x == id
    case Complete(x, _) => x == id
    case Guide(x) => x == id
    case Cancel(x) => x == id
  }

  /** An item is the next to be claimed when it is pending, nothing before it is, and nothing runs. */
  lemma NextAt(items: seq<Item>, k: nat)
    requires Valid(items) && k < |items|
    ensures CanClaim(items, items[k].id) <==>
              && items[k].status.Pending? && (forall i | 0 <= i < k :: !items[i].status.Pending?) && !AnyRunning(items)
  {
    FirstPendingFacts(items);
    if CanClaim(items, items[k].id) {
      var j :| 0 <= j < |items| && items[j].id == items[k].id && items[j].status == Pending;
      assert j == k;
      var least := LeastPending(items, k);
      assert least == k;
    }
  }

  /** An operation on other items runs nothing and makes nothing pending while the item can be claimed. */
  lemma OtherOperation(items: seq<Item>, id: string, op: Op, i: nat)
    requires CanClaim(items, id) && Accepts(items, op) && Disciplined(items, op) && !Concerns(op, id)
    requires i < |items|
    ensures |items| <= |Listing(items, op)| && Listing(items, op)[i].id == items[i].id
    ensures !Listing(items, op)[i].status.Running?
    ensures Listing(items, op)[i].status.Pending? ==> items[i].status.Pending?
    ensures items[i].id == id ==> Listing(items, op)[i] == items[i]
  {
    match op
    case Enqueue(_, _, _) =>
    case Claim(x) =>
    case Release(x) =>
    case Complete(x, _) =>
    case Guide(x) =>
    case Cancel(x) =>
  }

  /** An item that can be claimed next stays the next one until it, or the order, is acted on. */
  lemma NextStaysNext(items: seq<Item>, id: string, op: Op)
    requires Valid(items) && CanClaim(items, id) && Accepts(items, op) && Disciplined(items, op)
    requires !Concerns(op, id)
    ensures CanClaim(Listing(items, op), id)
  {
    FirstPendingFacts(items);
    var k :| 0 <= k < |items| && items[k].id == id && items[k].status == Pending;
    NextAt(items, k);
    OperationKeepsValid(items, op);
    forall i | 0 <= i < |items|
      ensures Listing(items, op)[i].id == items[i].id && !Listing(items, op)[i].status.Running?
      ensures Listing(items, op)[i].status.Pending? ==> items[i].status.Pending?
    {
      OtherOperation(items, id, op, i);
    }
    OtherOperation(items, id, op, k);
    assert !AnyRunning(Listing(items, op));
    NextAt(Listing(items, op), k);
  }

  lemma PrefixIsDisciplined(ops: seq<Op>, k: nat)
    requires DisciplinedRun(ops) && k <= |ops|
    ensures DisciplinedRun(ops[..k])
  {
    assert forall i | 0 <= i < k :: ops[..k][..i] == ops[..i];
  }

  lemma OperationAt(ops: seq<Op>, n: nat)
    requires DisciplinedRun(ops) && n < |ops|
    ensures var items, op := Queue(ops[..n]), ops[n];
            && Valid(items) && Disciplined(items, op)
            && Queue(ops[..n + 1]) == if Accepts(items, op) then Listing(items, op) else items
  {
    PrefixIsDisciplined(ops, n);
    RunRefinesQueue(ops[..n]);
    assert Disciplined(Queue(ops[..n]), ops[n]);
    assert ops[..n + 1][..n] == ops[..n];
  }

  /** Operation `n`, if it is accepted, acts neither on the item nor on the order. */
  predicate LeavesAlone(ops: seq<Op>, n: nat, id: string)
    requires n < |ops|
  {
    Accepts(Queue(ops[..n]), ops[n]) ==> !Concerns(ops[n], id)
  }

  lemma StillNext(ops: seq<Op>, n: nat, id: string)
    requires DisciplinedRun(ops) && n < |ops| && LeavesAlone(ops, n, id) && CanClaim(Queue(ops[..n]), id)
    ensures CanClaim(Queue(ops[..n + 1]), id)
  {
    OperationAt(ops, n);
    if Accepts(Queue(ops[..n]), ops[n]) {
      NextStaysNext(Queue(ops[..n]), id, ops[n]);
    }
  }

  ghost predicate KeepsNext(ops: seq<Op>, i: nat, id: string)
    requires i < |ops|
  {
    CanClaim(Queue(ops[..i]), id) ==> CanClaim(Queue(ops[..i + 1]), id)
  }

  lemma {:induction false} Chain(ops: seq<Op>, k: nat, n: nat, id: string)
    requires k <= n <= |ops| && CanClaim(Queue(ops[..k]), id) && forall i | k <= i < n :: KeepsNext(ops, i, id)
    ensures CanClaim(Queue(ops[..n]), id)
    decreases n
  {
    if k < n {
      Chain(ops, k, n - 1, id);
      assert KeepsNext(ops, n - 1, id);
    }
  }

  /** Over a whole run: the next item stays the next until an accepted operation acts on it, or on the order. */
  lemma NextStaysNextInRun(ops: seq<Op>, k: nat, n: nat, id: string)
    requires DisciplinedRun(ops) && k <= n <= |ops| && CanClaim(Queue(ops[..k]), id)
    requires forall i | k <= i < n :: LeavesAlone(ops, i, id)
    ensures CanClaim(Queue(ops[..n]), id)
  {
    forall i | k <= i < n ensures KeepsNext(ops, i, id) {
      if CanClaim(Queue(ops[..i]), id) {
        StillNext(ops, i, id);
      }
    }
    Chain(ops, k, n, id);
  }

  /** A released item is the next one, and stays it. */
  lemma ReleasedStaysNext(ops: seq<Op>, k: nat, n: nat, id: string)
    requires DisciplinedRun(ops) && k < n <= |ops| && ops[k] == Release(id) && Accepts(Queue(ops[..k]), ops[k])
    requires forall i | k < i < n :: LeavesAlone(ops, i, id)
    ensures CanClaim(Queue(ops[..n]), id)
  {
    OperationAt(ops, k);
    ReleasedIsNext(Queue(ops[..k]), id);
    NextStaysNextInRun(ops, k + 1, n, id);
  }

  /** There is an item with this id, message and key, in whatever status. */
  predicate HasText(items: seq<Item>, id: string, message: string, key: string) {
    exists i | 0 <= i < |items| :: items[i].id == id && items[i].message == message && items[i].key == key
  }

  lemma MarkedKeepsText(items: seq<Item>, marked: string, status: Status, id: string, message: string, key: string)
    ensures HasText(Marked(items, marked, status), id, message, key) <==> HasText(items, id, message, key)
  {
    var after := Marked(items, marked, status);
    if i :| 0 <= i < |items| && items[i].id == id && items[i].message == message && items[i].key == key {
      assert after[i].id == id && after[i].message == message && after[i].key == key;
    }
    if i :| 0 <= i < |after| && after[i].id == id && after[i].message == message && after[i].key == key {
      assert items[i].id == id && items[i].message == message && items[i].key == key;
    }
  }

  lemma ReorderKeepsText(items: seq<Item>, ids: seq<string>, id: string, message: string, key: string)
    requires Valid(items) && Reorders(items, ids)
    ensures HasText(Listing(items, Reorder(ids)), id, message, key) <==> HasText(items, id, message, key)
  {
    var after := Listing(items, Reorder(ids));
    if i :| 0 <= i < |items| && items[i].id == id && items[i].message == message && items[i].key == key {
      ReorderKeepsItem(items, ids, i);
      var k :| 0 <= k < |after| && after[k] == items[i];
    }
    if k :| 0 <= k < |after| && after[k].id == id && after[k].message == message && after[k].key == key {
      ReorderBringsNoId(items, ids, after[k]);
      var i :| 0 <= i < |items| && items[i] == after[k];
    }
  }

  lemma EnqueueAddsText(items: seq<Item>, item: Item, id: string, message: string, key: string)
    ensures HasText(items + [item], id, message, key)
       <==> HasText(items, id, message, key) || (item.id == id && item.message == message && item.key == key)
  {
    var after := items + [item];
    assert after[|items|] == item;
    if i :| 0 <= i < |items| && items[i].id == id && items[i].message == message && items[i].key == key {
      assert after[i] == items[i];
    }
  }

  lemma ListingHasText(items: seq<Item>, op: Op, id: string, message: string, key: string)
    requires Valid(items) && Accepts(items, op)
    ensures HasText(Listing(items, op), id, message, key)
       <==> HasText(items, id, message, key) || op == Enqueue(id, message, key)
  {
    match op
    case Enqueue(x, m, k) => EnqueueAddsText(items, Item(x, m, Pending, k), id, message, key);
    case Claim(x) => MarkedKeepsText(items, x, Running, id, message, key);
    case Release(x) => MarkedKeepsText(items, x, Pending, id, message, key);
    case Complete(x, failed) => MarkedKeepsText(items, x, if failed then Failed else Completed, id, message, key);
    case Guide(x) => MarkedKeepsText(items, x, Guided, id, message, key);
    case Cancel(x) => MarkedKeepsText(items, x, Cancelled, id, message, key);
    case Reorder(ids) => ReorderKeepsText(items, ids, id, message, key);
  }

  /** Operation `n` is an accepted enqueue of this item. */
  predicate Enqueues(ops: seq<Op>, n: nat, id: string, message: string, key: string)
    requires n < |ops|
  {
    ops[n] == Enqueue(id, message, key) && Accepts(Queue(ops[..n]), ops[n])
  }

  lemma TextAfterOperation(ops: seq<Op>, n: nat, id: string, message: string, key: string)
    requires DisciplinedRun(ops) && n < |ops|
    ensures HasText(Queue(ops[..n + 1]), id, message, key)
       <==> HasText(Queue(ops[..n]), id, message, key) || Enqueues(ops, n, id, message, key)
  {
    OperationAt(ops, n);
    if Accepts(Queue(ops[..n]), ops[n]) {
      ListingHasText(Queue(ops[..n]), ops[n], id, message, key);
    }
  }

  /** One of the first `n` operations is an accepted enqueue of this item. */
  ghost predicate SomeEnqueue(ops: seq<Op>, n: nat, id: string, message: string, key: string)
    requires n <= |ops|
  {
    exists i | 0 <= i < n :: Enqueues(ops, i, id, message, key)
  }

  lemma SomeEnqueueOneMore(ops: seq<Op>, n: nat, id: string, message: string, key: string)
    requires n < |ops|
    ensures SomeEnqueue(ops, n + 1, id, message, key)
       <==> SomeEnqueue(ops, n, id, message, key) || Enqueues(ops, n, id, message, key)
  {
  }

  /** The items are exactly those of the accepted enqueues, each with its message and its key. */
  lemma {:induction false} ItemsAreTheEnqueued(ops: seq<Op>, n: nat, id: string, message: string, key: string)
    requires DisciplinedRun(ops) && n <= |ops|
    ensures HasText(Queue(ops[..n]), id, message, key) <==> SomeEnqueue(ops, n, id, message, key)
  {
    if n > 0 {
      ItemsAreTheEnqueued(ops, n - 1, id, message, key);
      TextAfterOperation(ops, n - 1, id, message, key);
      SomeEnqueueOneMore(ops, n - 1, id, message, key);
    }
  }

  /** A key is enqueued once: a second enqueue with it, of whatever message, is not accepted. */
  lemma KeyIsEnqueuedOnce(ops: seq<Op>, i: nat, k: nat)
    requires DisciplinedRun(ops) && i < k < |ops| && ops[i].Enqueue? && ops[k].Enqueue?
    requires ops[i].key == ops[k].key != "" && Accepts(Queue(ops[..i]), ops[i])
    ensures !Accepts(Queue(ops[..k]), ops[k])
  {
    var id, message, key := ops[i].id, ops[i].message, ops[i].key;
    assert Enqueues(ops, i, id, message, key) && SomeEnqueue(ops, k, id, message, key);
    ItemsAreTheEnqueued(ops, k, id, message, key);
    var items := Queue(ops[..k]);
    var j :| 0 <= j < |items| && items[j].id == id && items[j].message == message && items[j].key == key;
  }
}
