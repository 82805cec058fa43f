/** `ConversationMessageQueue` (src/lightworker/message_queue.py): its operations on the session's events. */
module QueueStore {
  import opened MessageQueue
  import opened QueueRefinement

  /** One item of the cache file that older versions kept; `key` is "" when it has none. */
  datatype Legacy = Legacy(id: string, message: string, status: Status, key: string)

  /** The log after an operation: one event more when it is accepted. */
  ghost predicate Performed(before: seq<Event>, op: Op, after: seq<Event>)
    requires Good(FoldAll(before))
  {
    after == if Accepts(Listed(FoldAll(before)), op) then before + [EventOf(op)] else before
  }

  class ConversationQueue {
    var log: seq<Event>

    constructor ()
      ensures log == [] && Projects()
    {
      log := [];
    }

    /** Projecting the log succeeds. */
    ghost predicate Projects()
      reads this
    {
      Good(FoldAll(log))
    }

    ghost function Items(): seq<Item>
      requires Projects()
      reads this
    {
      Listed(FoldAll(log))
    }

    /** `_project`. */
    method Project() returns (items: seq<Item>)
      requires Projects()
      ensures items == Items()
    {
      var f := EMPTY;
      for i := 0 to |log|
        invariant f == FoldAll(log[..i])
      {
        assert log[..i + 1][..i] == log[..i];
        match log[i] {
          case Enqueued(item) =>
            if item.id != "" {
              var ordered := f.ordered;
              if item.id !in f.byId {
                ordered := ordered + [item.id];
              }
              f := Fold(ordered, f.byId[item.id := item]);
            }
          case Reordered(ids) =>
            var kept := [];
            for k := 0 to |f.ordered|
              invariant kept == Without(f.ordered[..k], ids)
            {
              assert f.ordered[..k + 1][..k] == f.ordered[..k];
              if f.ordered[k] !in ids {
                kept := kept + [f.ordered[k]];
              }
            }
            assert f.ordered[..|f.ordered|] == f.ordered;
            f := Fold(kept + ids, f.byId);
          case event =>
            f := Folded(f, event);
        }
      }
      assert log[..|log|] == log;
      return Listed(f);
    }

    /** The event of an accepted operation does to the items what the operation does to the list. */
    lemma Appending(op: Op)
      requires Projects() && Accepts(Items(), op) && (op.Enqueue? ==> op.id != "" && !Has(Items(), op.id))
      ensures Good(FoldAll(log + [EventOf(op)]))
      ensures Listed(FoldAll(log + [EventOf(op)])) == Listing(Items(), op)
    {
      EventRefinesListing(FoldAll(log), op);
      assert (log + [EventOf(op)])[..|log|] == log;
    }

    method Enqueue(id: string, message: string, key: string) returns (queued: string)
      requires Projects() && id != "" && !Has(Items(), id)
      modifies this
      ensures Projects() && Performed(old(log), Op.Enqueue(id, message, key), log)
      ensures Has(Items(), queued)
      ensures if HasKey(old(Items()), key) then
                exists i | 0 <= i < |old(Items())| :: old(Items())[i].id == queued && old(Items())[i].key == key
              else
                queued == id
      ensures Items()
           == if HasKey(old(Items()), key) then old(Items()) else Listing(old(Items()), Op.Enqueue(id, message, key))
    {
      var items := Project();
      if key != "" {
        for i := 0 to |items|
          invariant forall k | 0 <= k < i :: items[k].key != key
        {
          if items[i].key == key {
            return items[i].id;
          }
        }
      }
      Appending(Op.Enqueue(id, message, key));
      log := log + [Enqueued(Item(id, message, Pending, key))];
      assert Items()[|items|].id == id;
      return id;
    }

    /** Only the first pending item can be claimed, and only when nothing is running. */
    method Claim(id: string) returns (claimed: bool)
      requires Projects()
      modifies this
      ensures Projects() && Performed(old(log), Op.Claim(id), log)
      ensures claimed == CanClaim(old(Items()), id)
      ensures Items() == if claimed then Marked(old(Items()), id, Running) else old(Items())
    {
      var items := Project();
      if AnyRunning(items) || id == "" || FirstPending(items) != id {
        return false;
      }
      Appending(Op.Claim(id));
      log := log + [Claimed(id)];
      return true;
    }

    method Release(id: string) returns (found: bool)
      requires Projects()
      modifies this
      ensures Projects() && Performed(old(log), Op.Release(id), log)
      ensures found == Has(old(Items()), id)
      ensures Items() == if found then Marked(old(Items()), id, Pending) else old(Items())
      ensures Valid(old(Items())) && HasStatus(old(Items()), id, Running) ==> Valid(Items()) && CanClaim(Items(), id)
    {
      var items := Project();
      if !Has(items, id) {
        return false;
      }
      Appending(Op.Release(id));
      if Valid(items) && HasStatus(items, id, Running) {
        ReleasedIsNext(items, id);
      }
      log := log + [Released(id)];
      return true;
    }

    method Complete(id: string, failed: bool) returns (found: bool)
      requires Projects()
      modifies this
      ensures Projects() && Performed(old(log), Op.Complete(id, failed), log)
      ensures found == Has(old(Items()), id)
      ensures Items() == if found then Marked(old(Items()), id, if failed then Failed else Completed) else old(Items())
    {
      var items := Project();
      if !Has(items, id) {
        return false;
      }
      Appending(Op.Complete(id, failed));
      log := log + [Finished(id, failed)];
      return true;
    }

    method Guide(id: string) returns (ok: bool)
      requires Projects()
      modifies this
      ensures Projects() && Performed(old(log), Op.Guide(id), log)
      ensures ok == HasStatus(old(Items()), id, Pending)
      ensures Items() == if ok then Marked(old(Items()), id, Guided) else old(Items())
    {
      var items := Project();
      if !HasStatus(items, id, Pending) {
        return false;
      }
      Appending(Op.Guide(id));
      log := log + [GuidedBy(id)];
      return true;
    }

    method Cancel(id: string) returns (ok: bool)
      requires Projects()
      modifies this
      ensures Projects() && Performed(old(log), Op.Cancel(id), log)
      ensures ok == HasStatus(old(Items()), id, Pending)
      ensures Items() == if ok then Marked(old(Items()), id, Cancelled) else old(Items())
    {
      var items := Project();
      if !HasStatus(items, id, Pending) {
        return false;
      }
      Appending(Op.Cancel(id));
      log := log + [CancelledBy(id)];
      return true;
    }

    method Reorder(ids: seq<string>) returns (ok: bool)
      requires Projects()
      modifies this
      ensures Projects() && Performed(old(log), Op.Reorder(ids), log)
      ensures ok == Reorders(old(Items()), ids)
      ensures Items() == if ok then Listing(old(Items()), Op.Reorder(ids)) else old(Items())
    {
      var items := Project();
      if !Reorders(items, ids) {
        return false;
      }
      Appending(Op.Reorder(ids));
      log := log + [Reordered(ids)];
      return true;
    }

    /** One legacy item: enqueued as pending, then moved to the status it had. */
    method MigrateItem(item: Legacy)
      requires Projects()
      modifies this
      ensures Projects() && old(log) <= log
      ensures Items() == Put(old(Items()), CarriedItem(item))
    {
      var queued := Item(item.id, item.message, Pending, item.key);
      ghost var f := FoldAll(log);
      PutEvent(log, queued);
      MarkPut(Listed(f), queued, item.status);
      log := log + [Enqueued(queued)];
      match item.status {
        case Running =>
          MarkEvent(log, item.id, Running, Claimed(item.id));
          log := log + [Claimed(item.id)];
        case Completed =>
          MarkEvent(log, item.id, Completed, Finished(item.id, false));
          log := log + [Finished(item.id, false)];
        case Failed =>
          MarkEvent(log, item.id, Failed, Finished(item.id, true));
          log := log + [Finished(item.id, true)];
        case Guided =>
          MarkEvent(log, item.id, Guided, GuidedBy(item.id));
          log := log + [GuidedBy(item.id)];
        case _ =>
      }
    }

    /** `_ensure_migrated`: an existing cache file is replayed into the log, once. */
    method EnsureMigrated(legacy: seq<Legacy>)
      requires Projects()
      modifies this
      ensures Projects()
      ensures if Migrated(old(log)) || legacy == [] then
                log == old(log)
              else
                Migrated(log) && Items() == Carried(old(Items()), legacy)
      ensures MigrationCompleted in old(log) ==> log == old(log)
      ensures legacy != [] && MigrationStarted in old(log) && MigrationCompleted !in old(log) ==>
                MigrationCompleted in log && Items() == Carried(old(Items()), legacy)
      ensures legacy != [] && old(log) == [] ==> Items() == Carried([], legacy)
    {
      if Migrated(log) || legacy == [] {
        return;
      }
      var before := Project();
      if MigrationStarted !in log {
        FoldOneMore(log, MigrationStarted);
        log := log + [MigrationStarted];
      }
      for i := 0 to |legacy|
        invariant Projects() && Items() == Carried(before, legacy[..i])
      {
        assert legacy[..i + 1][..i] == legacy[..i];
        if !Has(before, legacy[i].id) {
          MigrateItem(legacy[i]);
        }
      }
      assert legacy[..|legacy|] == legacy;
      FoldOneMore(log, MigrationCompleted);
      log := log + [MigrationCompleted];
      assert MigrationCompleted in log;
    }
  }

  lemma FoldOneMore(log: seq<Event>, event: Event)
    ensures FoldAll(log + [event]) == Folded(FoldAll(log), event)
  {
    assert (log + [event])[..|log|] == log;
  }

  lemma MarkEvent(log: seq<Event>, id: string, status: Status, event: Event)
    requires Good(FoldAll(log))
    requires Folded(FoldAll(log), event) == FoldAll(log).(byId := WithStatus(FoldAll(log).byId, id, status))
    ensures Good(FoldAll(log + [event]))
    ensures Listed(FoldAll(log + [event])) == Marked(Listed(FoldAll(log)), id, status)
  {
    FoldOneMore(log, event);
    MarkRefines(FoldAll(log), id, status);
  }

  /** Enqueueing an item: a known id keeps its place, an empty id is ignored. */
  function Put(items: seq<Item>, item: Item): seq<Item> {
    if item.id == "" then items
    else if Has(items, item.id) then
      seq(|items|, i requires 0 <= i < |items| => if items[i].id == item.id then item else items[i])
    else items + [item]
  }

  lemma PutRefines(f: Fold, item: Item)
    requires Good(f)
    ensures Good(Folded(f, Enqueued(item)))
    ensures Listed(Folded(f, Enqueued(item))) == Put(Listed(f), item)
    ensures forall i | 0 <= i < |Listed(f)| :: Listed(f)[i].id != ""
  {
    ListedHas(f, item.id);
    assert forall i | 0 <= i < |f.ordered| :: f.ordered[i] in f.ordered;
    if item.id != "" && item.id !in f.byId {
      EnqueueRefines(f, item);
    }
  }

  lemma PutEvent(log: seq<Event>, item: Item)
    requires Good(FoldAll(log))
    ensures Good(FoldAll(log + [Enqueued(item)]))
    ensures Listed(FoldAll(log + [Enqueued(item)])) == Put(Listed(FoldAll(log)), item)
    ensures forall i | 0 <= i < |Listed(FoldAll(log))| :: Listed(FoldAll(log))[i].id != ""
  {
    FoldOneMore(log, Enqueued(item));
    PutRefines(FoldAll(log), item);
  }

  lemma MarkPut(items: seq<Item>, item: Item, status: Status)
    requires forall i | 0 <= i < |items| :: items[i].id != ""
    ensures Marked(Put(items, item), item.id, status) == Put(items, item.(status := status))
  {
  }

  predicate Migrated(log: seq<Event>) {
    MigrationCompleted in log || (MigrationStarted !in log && exists i | 0 <= i < |log| :: log[i].Enqueued?)
  }

  /** A cancelled item comes back as a pending one: no event is written for it. */
  function CarriedItem(item: Legacy): Item {
    Item(item.id, item.message, if item.status.Cancelled? then Pending else item.status, item.key)
  }

  /** The queue after migration: items that were in it stay, and each other legacy item is put in. */
  function Carried(before: seq<Item>, legacy: seq<Legacy>): seq<Item> {
    if legacy == [] then
      before
    else
      var last := legacy[|legacy| - 1];
      var items := Carried(before, legacy[..|legacy| - 1]);
      if Has(before, last.id) then items else Put(items, CarriedItem(last))
  }

  /** Into an empty queue, items with ids of their own are carried one by one, in their order. */
  lemma {:induction false} DistinctItemsAreCarried(legacy: seq<Legacy>)
    requires forall i | 0 <= i < |legacy| :: legacy[i].id != ""
    requires forall i, j | 0 <= i < j < |legacy| :: legacy[i].id != legacy[j].id
    ensures |Carried([], legacy)| == |legacy|
    ensures forall i | 0 <= i < |legacy| ::
              Carried([], legacy)[i]
              == Item(legacy[i].id, legacy[i].message,
                      if legacy[i].status == Cancelled then Pending else legacy[i].status, legacy[i].key)
  {
    if legacy != [] {
      DistinctItemsAreCarried(legacy[..|legacy| - 1]);
    }
  }

  /** No later legacy item has the same id. */
  predicate IsLast(legacy: seq<Legacy>, i: nat)
    requires i < |legacy|
  {
    forall j | i < j < |legacy| :: legacy[j].id != legacy[i].id
  }

  lemma PutFacts(items: seq<Item>, item: Item, id: string)
    requires id != ""
    ensures Has(Put(items, item), id) <==> Has(items, id) || item.id == id
    ensures item.id == id ==> forall k | 0 <= k < |Put(items, item)| && Put(items, item)[k].id == id ::
              Put(items, item)[k] == item
    ensures item.id != id ==> forall k | 0 <= k < |Put(items, item)| && Put(items, item)[k].id == id ::
      k < |items| && Put(items, item)[k] == items[k]
  {
    var after := Put(items, item);
    if k :| 0 <= k < |items| && items[k].id == id {
      assert after[k].id == id;
    }
    if item.id == id && !Has(items, id) {
      assert after[|items|].id == id;
    }
  }

  /** Of several legacy items with one id the last is carried. */
  lemma {:induction false} LastIsCarried(legacy: seq<Legacy>, i: nat)
    requires i < |legacy| && legacy[i].id != "" && IsLast(legacy, i)
    ensures var items := Carried([], legacy);
            Has(items, legacy[i].id)
            && forall k | 0 <= k < |items| && items[k].id == legacy[i].id :: items[k] == CarriedItem(legacy[i])
  {
    var last := |legacy| - 1;
    PutFacts(Carried([], legacy[..last]), CarriedItem(legacy[last]), legacy[i].id);
    if i < last {
      LastIsCarried(legacy[..last], i);
    }
  }

  /** Migration keeps every id's status, as its last legacy item has it, exactly when none of these is cancelled. */
  lemma MigrationFaithfulIffNoneCancelled(legacy: seq<Legacy>)
    ensures (forall i | 0 <= i < |legacy| && legacy[i].id != "" && IsLast(legacy, i) ::
               HasStatus(Carried([], legacy), legacy[i].id, legacy[i].status))
       <==> (forall i | 0 <= i < |legacy| && legacy[i].id != "" && IsLast(legacy, i) :: !legacy[i].status.Cancelled?)
  {
    forall i | 0 <= i < |legacy| && legacy[i].id != "" && IsLast(legacy, i)
      ensures HasStatus(Carried([], legacy), legacy[i].id, legacy[i].status) <==> !legacy[i].status.Cancelled?
    {
      LastIsCarried(legacy, i);
    }
  }
}
