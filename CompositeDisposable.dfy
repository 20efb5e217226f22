/**
 * A bag of disposables torn down together, last added first. The held objects are opaque;
 * each `Dispose()` call the composite makes on one of them is recorded in `disposeCalls`.
 */
module CompositeDisposable {
  import opened Lists

  /** The identity of a held IDisposable. */
  type Item = nat

  class CompositeDisposable {
    var items: seq<Item>
    var isDisposed: bool
    /** Every Dispose() call made on an item, oldest first. */
    var disposeCalls: seq<Item>

    constructor ()
      ensures items == [] && !isDisposed && disposeCalls == []
    {
      items := [];
      isDisposed := false;
      disposeCalls := [];
    }

    function Count(): nat
      reads this
    {
      |items|
    }

    /** A live composite keeps the item; a disposed one disposes it at once and keeps nothing. */
    method Add(d: Item)
      modifies this`items, this`disposeCalls
      ensures isDisposed ==> items == old(items) && disposeCalls == old(disposeCalls) + [d]
      ensures !isDisposed ==> items == old(items) + [d] && disposeCalls == old(disposeCalls)
    {
      if isDisposed {
        disposeCalls := disposeCalls + [d];
        return;
      }
      items := items + [d];
    }

    /** Drops the first occurrence of d without disposing it. */
    method Remove(d: Item)
      modifies this`items
      ensures items == RemoveFirst(old(items), d)
    {
      items := RemoveFirst(items, d);
    }

    /** The first call disposes every item, newest first, and empties the bag; later calls do nothing. */
    method Dispose()
      modifies this
      ensures isDisposed
      ensures old(isDisposed) ==> items == old(items) && disposeCalls == old(disposeCalls)
      ensures !old(isDisposed) ==> items == [] && disposeCalls == old(disposeCalls) + Reverse(old(items))
    {
      if isDisposed {
        return;
      }
      isDisposed := true;
      DisposeItemsNewestFirst();
    }

    /** Disposes every item, newest first, and empties the bag, leaving the composite usable. */
    method Clear()
      modifies this`items, this`disposeCalls
      ensures items == [] && disposeCalls == old(disposeCalls) + Reverse(old(items))
    {
      DisposeItemsNewestFirst();
    }

    /** The reverse index loop shared by Dispose and Clear, followed by List.Clear. */
    method DisposeItemsNewestFirst()
      modifies this`items, this`disposeCalls
      ensures items == [] && disposeCalls == old(disposeCalls) + Reverse(old(items))
    {
      var i := |items| - 1;
      while i >= 0
        invariant -1 <= i < |items|
        invariant items == old(items)
        invariant disposeCalls == old(disposeCalls) + Reverse(items[i + 1..])
      {
        assert items[i..][1..] == items[i + 1..];
        disposeCalls := disposeCalls + [items[i]];
        i := i - 1;
      }
      assert items[0..] == items;
      items := [];
    }
  }

  /** The `AddTo` extension: adds the disposable and hands the same one back. */
  method AddTo(d: Item, composite: CompositeDisposable) returns (r: Item)
    modifies composite`items, composite`disposeCalls
    ensures r == d
    ensures composite.isDisposed ==> composite.items == old(composite.items) && composite.disposeCalls == old(composite.disposeCalls) + [d]
    ensures !composite.isDisposed ==> composite.items == old(composite.items) + [d] && composite.disposeCalls == old(composite.disposeCalls)
  {
    composite.Add(d);
    r := d;
  }
}
