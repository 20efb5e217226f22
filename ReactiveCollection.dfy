/**
 * ReactiveCollection: a list that announces every change. Each mutator changes the list first and
 * then raises its specific event followed by one change event. The five events are separate: an
 * event reaches handlers only when some are attached to that event; `emitted` records what the
 * handlers received, oldest first.
 */
module ReactiveCollection {
  import Lists

  datatype CollectionEvent<T> =
    | ItemAdded(index: int, item: T)
    | ItemRemoved(index: int, item: T)
    | ItemReplaced(index: int, oldItem: T, newItem: T)
    | Cleared
    | Changed

  /** The five events a consumer can subscribe to, one per kind of announcement. */
  datatype EventKind = OnItemAdded | OnItemRemoved | OnItemReplaced | OnCleared | OnChanged

  function KindOf<T>(e: CollectionEvent<T>): EventKind {
    match e
    case ItemAdded(_, _) => OnItemAdded
    case ItemRemoved(_, _) => OnItemRemoved
    case ItemReplaced(_, _, _) => OnItemReplaced
    case Cleared => OnCleared
    case Changed => OnChanged
  }

  /**
   * What handlers attached to the events in `attached` receive when `events` are raised one after
   * the other (each `?.Invoke` reaches its own event's handlers, or no one).
   */
  function Delivered<T>(attached: set<EventKind>, events: seq<CollectionEvent<T>>): (r: seq<CollectionEvent<T>>)
    ensures |r| <= |events|
  {
    if events == [] then []
    else (if KindOf(events[0]) in attached then [events[0]] else []) + Delivered(attached, events[1..])
  }

  /** Exactly the raised events of attached kinds are delivered. */
  lemma {:induction false} DeliveredExactly<T>(attached: set<EventKind>, events: seq<CollectionEvent<T>>, e: CollectionEvent<T>)
    ensures e in Delivered(attached, events) <==> e in events && KindOf(e) in attached
  {
    if events != [] {
      DeliveredExactly(attached, events[1..], e);
      assert events == [events[0]] + events[1..];
    }
  }

  /** Raising two batches one after the other delivers their concatenation. */
  lemma {:induction false} DeliveredConcat<T>(attached: set<EventKind>, a: seq<CollectionEvent<T>>, b: seq<CollectionEvent<T>>)
    ensures Delivered(attached, a) + Delivered(attached, b) == Delivered(attached, a + b)
  {
    if a == [] {
      assert a + b == b;
    } else {
      var head := if KindOf(a[0]) in attached then [a[0]] else [];
      assert (a + b)[0] == a[0] && (a + b)[1..] == a[1..] + b;
      assert Delivered(attached, a + b) == head + Delivered(attached, a[1..] + b);
      DeliveredConcat(attached, a[1..], b);
    }
  }

  /** With every event attached, everything is delivered; with none, nothing is. */
  lemma {:induction false} DeliveredAllOrNone<T>(events: seq<CollectionEvent<T>>)
    ensures Delivered({OnItemAdded, OnItemRemoved, OnItemReplaced, OnCleared, OnChanged}, events) == events
    ensures Delivered({}, events) == []
  {
    if events != [] {
      DeliveredAllOrNone(events[1..]);
      assert events == [events[0]] + events[1..];
    }
  }

  /** One ItemAdded per item of an appended range, the first landing at position `start`. */
  function AddedEvents<T>(start: int, items: seq<T>): (r: seq<CollectionEvent<T>>)
    ensures |r| == |items|
  {
    if items == [] then [] else AddedEvents(start, items[..|items| - 1]) + [ItemAdded(start + |items| - 1, items[|items| - 1])]
  }

  /** The k-th event of a range names the position the k-th item lands on. */
  lemma {:induction false} AddedEventsAt<T>(start: int, items: seq<T>, k: nat)
    requires k < |items|
    ensures AddedEvents(start, items)[k] == ItemAdded(start + k, items[k])
  {
    if k < |items| - 1 {
      AddedEventsAt(start, items[..|items| - 1], k);
    }
  }

  /** Every event of an AddRange names a position that holds the announced item afterwards. */
  lemma AddRangeEventsTruthful<T>(before: seq<T>, items: seq<T>, e: CollectionEvent<T>)
    requires e in AddedEvents(|before|, items)
    ensures e.ItemAdded? && 0 <= e.index < |before + items| && (before + items)[e.index] == e.item
  {
    var k :| 0 <= k < |items| && AddedEvents(|before|, items)[k] == e;
    AddedEventsAt(|before|, items, k);
  }

  class ReactiveCollection<T(==)> {
    var list: seq<T>
    /** The events that have handlers attached. */
    var attached: set<EventKind>
    var emitted: seq<CollectionEvent<T>>

    constructor ()
      ensures list == [] && attached == {} && emitted == []
    {
      list := [];
      attached := {};
      emitted := [];
    }

    /** What the attached handlers receive when `events` are raised. */
    function Deliver(events: seq<CollectionEvent<T>>): seq<CollectionEvent<T>>
      reads this
    {
      Delivered(attached, events)
    }

    function Count(): nat
      reads this
    {
      |list|
    }

    function Contains(item: T): bool
      reads this
    {
      item in list
    }

    function IndexOf(item: T): int
      reads this
    {
      Lists.IndexOf(list, item)
    }

    /** A consumer subscribing a handler to one event (`+=`); the other events are unaffected. */
    method Attach(kind: EventKind)
      modifies this`attached
      ensures attached == old(attached) + {kind}
    {
      attached := attached + {kind};
    }

    /** `?.Invoke` of one event: its handlers receive it when there are any. */
    method Raise(e: CollectionEvent<T>)
      modifies this`emitted
      ensures emitted == old(emitted) + Deliver([e])
      ensures KindOf(e) in attached ==> emitted == old(emitted) + [e]
      ensures KindOf(e) !in attached ==> emitted == old(emitted)
    {
      if KindOf(e) in attached {
        emitted := emitted + [e];
      }
    }

    /** Two events raised one after the other. */
    method RaiseTwo(e: CollectionEvent<T>, f: CollectionEvent<T>)
      modifies this`emitted
      ensures emitted == old(emitted) + Deliver([e, f])
    {
      Raise(e);
      Raise(f);
      DeliveredConcat(attached, [e], [f]);
      assert [e] + [f] == [e, f];
    }

    /** The indexer setter: replaces and announces even when the new item equals the old one. */
    method Set(index: nat, item: T)
      requires index < |list|
      modifies this`list, this`emitted
      ensures list == old(list)[index := item]
      ensures emitted == old(emitted) + Deliver([ItemReplaced(index, old(list)[index], item), Changed])
    {
      var previous := list[index];
      list := list[index := item];
      RaiseTwo(ItemReplaced(index, previous, item), Changed);
    }

    method Add(item: T)
      modifies this`list, this`emitted
      ensures list == old(list) + [item]
      ensures emitted == old(emitted) + Deliver([ItemAdded(|list| - 1, item), Changed])
    {
      list := list + [item];
      RaiseTwo(ItemAdded(|list| - 1, item), Changed);
    }

    method Insert(index: nat, item: T)
      requires index <= |list|
      modifies this`list, this`emitted
      ensures list == Lists.InsertAt(old(list), index, item) && list[index] == item
      ensures emitted == old(emitted) + Deliver([ItemAdded(index, item), Changed])
    {
      list := Lists.InsertAt(list, index, item);
      RaiseTwo(ItemAdded(index, item), Changed);
    }

    /** Removes the first occurrence; an absent item changes nothing and raises nothing. */
    method Remove(item: T) returns (removed: bool)
      modifies this`list, this`emitted
      ensures removed == (item in old(list))
      ensures list == Lists.RemoveFirst(old(list), item)
      ensures !removed ==> emitted == old(emitted)
      ensures removed ==> emitted == old(emitted) + Deliver([ItemRemoved(Lists.IndexOf(old(list), item), item), Changed])
    {
      var index := Lists.IndexOf(list, item);
      if index < 0 {
        return false;
      }
      RemoveAt(index);
      removed := true;
    }

    method RemoveAt(index: nat)
      requires index < |list|
      modifies this`list, this`emitted
      ensures list == Lists.RemoveAt(old(list), index)
      ensures emitted == old(emitted) + Deliver([ItemRemoved(index, old(list)[index]), Changed])
    {
      var item := list[index];
      list := Lists.RemoveAt(list, index);
      RaiseTwo(ItemRemoved(index, item), Changed);
    }

    /** Empties the list and announces it, even when it was already empty. */
    method Clear()
      modifies this`list, this`emitted
      ensures list == []
      ensures emitted == old(emitted) + Deliver([Cleared, Changed])
    {
      list := [];
      RaiseTwo(Cleared, Changed);
    }

    /** Appends in order with one ItemAdded per item, then a single Changed even for an empty range. */
    method AddRange(items: seq<T>)
      modifies this`list, this`emitted
      ensures list == old(list) + items
      ensures emitted == old(emitted) + Deliver(AddedEvents(|old(list)|, items) + [Changed])
    {
      var i := 0;
      while i < |items|
        invariant 0 <= i <= |items|
        invariant list == old(list) + items[..i]
        invariant emitted == old(emitted) + Deliver(AddedEvents(|old(list)|, items[..i]))
      {
        ghost var done := AddedEvents(|old(list)|, items[..i]);
        list := list + [items[i]];
        var added := ItemAdded(|list| - 1, items[i]);
        Raise(added);
        assert items[..i + 1][..i] == items[..i];
        assert AddedEvents(|old(list)|, items[..i + 1]) == done + [added];
        DeliveredConcat(attached, done, [added]);
        i := i + 1;
      }
      assert items[..i] == items;
      Raise(Changed);
      DeliveredConcat(attached, AddedEvents(|old(list)|, items), [Changed]);
    }

    /** Detaches every handler of every event and empties the list, raising nothing. */
    method Dispose()
      modifies this`list, this`attached
      ensures list == [] && attached == {}
    {
      attached := {};
      list := [];
    }
  }

  /** After Dispose nothing reaches anyone: a later Add is silent. */
  method DisposeSilences<T(==)>(c: ReactiveCollection<T>, item: T)
    modifies c
    ensures c.list == [item] && c.emitted == old(c.emitted)
  {
    c.Dispose();
    c.Add(item);
    DeliveredAllOrNone([ItemAdded(0, item), Changed]);
  }

  /** Insert followed by RemoveAt at the same index restores the list. */
  method InsertThenRemoveAt<T(==)>(c: ReactiveCollection<T>, index: nat, item: T)
    requires index <= |c.list|
    modifies c`list, c`emitted
    ensures c.list == old(c.list)
    ensures c.emitted == old(c.emitted) + c.Deliver([ItemAdded(index, item), Changed, ItemRemoved(index, item), Changed])
  {
    ghost var added, removed := [ItemAdded(index, item), Changed], [ItemRemoved(index, item), Changed];
    c.Insert(index, item);
    ghost var between, inserted := c.emitted, c.list;
    assert inserted[index] == item;
    c.RemoveAt(index);
    assert c.list == old(c.list) by {
      Lists.RemoveAtInsertAt(old(c.list), index, item);
    }
    assert c.emitted == old(c.emitted) + c.Deliver(added + removed) by {
      DeliveredConcat(c.attached, added, removed);
    }
    assert added + removed == [ItemAdded(index, item), Changed, ItemRemoved(index, item), Changed];
  }

  /**
   * A consumer subscribed only to OnChanged hears one Changed per mutation and none of the specific
   * events: after an Add it has received exactly [Changed].
   */
  method ChangedOnlyConsumer<T(==)>(item: T) returns (c: ReactiveCollection<T>)
    ensures c.list == [item] && c.emitted == [Changed]
  {
    c := new ReactiveCollection();
    c.Attach(OnChanged);
    assert c.attached == {OnChanged};
    c.Add(item);
    ghost var raised: seq<CollectionEvent<T>> := [ItemAdded(0, item), Changed];
    assert c.emitted == c.Deliver(raised);
    assert raised[1..] == [Changed] && raised[1..][1..] == [];
    assert Delivered({OnChanged}, raised[1..]) == [Changed];
  }
}
