/**
 * UICollection: a pooled list of UI elements. Positions below `count` hold the active (visible)
 * elements; later positions hold inactive elements kept for reuse, each tagged with the resource id
 * it was made from (-1 for the default resource, otherwise an index into the predefined items).
 * Sibling order in the scene hierarchy is not modelled.
 */
module UICollection {
  import Lists
  import opened Wrappers

  /** A scene object with its activeSelf flag. */
  class Element {
    var active: bool

    /** Object.Instantiate: the clone starts with the template's active flag. */
    constructor Clone(template: Element)
      ensures active == template.active
    {
      active := template.active;
    }
  }

  datatype ElementReference = ElementReference(item: Element, resId: int)

  /**
   * RemoveElement's exceptions: its own IndexOutOfRangeException for a position at or past the count,
   * and the list indexer's ArgumentOutOfRangeException for a negative position, which passes that guard.
   */
  datatype RemoveError = IndexOutOfRange | ArgumentOutOfRange

  /** No element appears twice. */
  predicate Distinct(items: seq<ElementReference>) {
    forall i, j :: 0 <= i < j < |items| ==> items[i].item != items[j].item
  }

  predicate DistinctElements(es: seq<Element>) {
    forall i, j :: 0 <= i < j < |es| ==> es[i] != es[j]
  }

  /** The search in InsertElement: the first position at or after `from` tagged `resId`, or -1. */
  function FindReusable(items: seq<ElementReference>, from: nat, resId: int): (j: int)
    requires from <= |items|
    ensures j == -1 || from <= j < |items|
    ensures j >= 0 ==> items[j].resId == resId && forall k :: from <= k < j ==> items[k].resId != resId
    ensures j == -1 <==> forall k :: from <= k < |items| ==> items[k].resId != resId
    decreases |items| - from
  {
    if from == |items| then -1
    else if items[from].resId == resId then from
    else FindReusable(items, from + 1, resId)
  }

  /** The element at `from` taken out and put back at `to`. */
  function Move<X>(s: seq<X>, from: nat, to: nat): (r: seq<X>)
    requires from < |s| && to < |s|
    ensures |r| == |s| && r[to] == s[from]
  {
    Lists.InsertAt(Lists.RemoveAt(s, from), to, s[from])
  }

  /** A move keeps the elements: the result is a permutation. */
  lemma MovePermutes<X>(s: seq<X>, from: nat, to: nat)
    requires from < |s| && to < |s|
    ensures multiset(Move(s, from, to)) == multiset(s)
  {
    Lists.RemoveAtMultiset(s, from);
    Lists.InsertAtMultiset(Lists.RemoveAt(s, from), to, s[from]);
  }

  /** Moving an element to an earlier place shifts the elements between up by one and leaves the rest. */
  lemma MoveDown<X>(s: seq<X>, from: nat, to: nat, k: nat)
    requires to <= from < |s| && k < |s|
    ensures k < to || from < k ==> Move(s, from, to)[k] == s[k]
    ensures to < k <= from ==> Move(s, from, to)[k] == s[k - 1]
  {
  }

  lemma MoveDistinct(s: seq<ElementReference>, from: nat, to: nat)
    requires Distinct(s) && to <= from < |s|
    ensures Distinct(Move(s, from, to))
  {
    var r := Move(s, from, to);
    forall i, j | 0 <= i < j < |r|
      ensures r[i].item != r[j].item
    {
      MoveDown(s, from, to, i);
      MoveDown(s, from, to, j);
    }
  }

  /**
   * Moving an element from the inactive part to a place inside the active part: every other
   * position keeps the layout of a list whose active part is one longer, and holds another element.
   */
  lemma MoveLayout(s: seq<ElementReference>, from: nat, to: nat, count: nat)
    requires to <= count <= from < |s|
    requires forall k :: 0 <= k < |s| ==> (s[k].item.active <==> k < count)
    requires Distinct(s)
    ensures forall k :: 0 <= k < |s| && k != to ==>
      (Move(s, from, to)[k].item.active <==> k < count + 1) && Move(s, from, to)[k].item != s[from].item
  {
    forall k | 0 <= k < |s| && k != to
      ensures (Move(s, from, to)[k].item.active <==> k < count + 1) && Move(s, from, to)[k].item != s[from].item
    {
      MoveDown(s, from, to, k);
      var j := if k < to || from < k then k else k - 1;
      assert Move(s, from, to)[k] == s[j] && j != from;
    }
  }

  /** Moving elements around brings in no element that was not there. */
  lemma MoveAvoids(s: seq<ElementReference>, from: nat, to: nat, res: Element?)
    requires to <= from < |s|
    requires res != null ==> forall k :: 0 <= k < |s| ==> s[k].item != res
    ensures res != null ==> forall k :: 0 <= k < |s| ==> Move(s, from, to)[k].item != res
  {
    forall k | 0 <= k < |s|
      ensures res != null ==> Move(s, from, to)[k].item != res
    {
      MoveDown(s, from, to, k);
    }
  }

  /**
   * SetResourceId's swap: the last active element trades places with the one at `index`. Every
   * position but `last` keeps the layout of a list whose active part ends before `last`.
   */
  lemma SwapLayout(s: seq<ElementReference>, index: nat, last: nat, res: Element?)
    requires index < last < |s|
    requires forall k :: 0 <= k < |s| ==> (s[k].item.active <==> k < last + 1)
    requires Distinct(s)
    requires res != null ==> forall k :: 0 <= k < |s| ==> s[k].item != res
    ensures Distinct(Lists.Swap(s, index, last))
    ensures forall k :: 0 <= k < |s| && k != last ==>
      (Lists.Swap(s, index, last)[k].item.active <==> k < last) && Lists.Swap(s, index, last)[k].item != s[index].item
    ensures res != null ==> forall k :: 0 <= k < |s| ==> Lists.Swap(s, index, last)[k].item != res
  {
    var r := Lists.Swap(s, index, last);
    forall i, j | 0 <= i < j < |r|
      ensures r[i].item != r[j].item
    {
      var i' := if i == index then last else if i == last then index else i;
      var j' := if j == index then last else if j == last then index else j;
      assert r[i] == s[i'] && r[j] == s[j'] && i' != j';
    }
  }

  /** Inserting a new active element inside the active part keeps the layout and the distinctness. */
  lemma InsertKeeps(s: seq<ElementReference>, i: nat, x: ElementReference, count: nat, res: Element?)
    requires i <= count <= |s| && x.item.active
    requires forall k :: 0 <= k < |s| ==> (s[k].item.active <==> k < count)
    requires Distinct(s) && forall k :: 0 <= k < |s| ==> s[k].item != x.item
    requires res != null ==> x.item != res && forall k :: 0 <= k < |s| ==> s[k].item != res
    ensures forall k :: 0 <= k < |s| + 1 ==> (Lists.InsertAt(s, i, x)[k].item.active <==> k < count + 1)
    ensures Distinct(Lists.InsertAt(s, i, x))
    ensures res != null ==> forall k :: 0 <= k < |s| + 1 ==> Lists.InsertAt(s, i, x)[k].item != res
  {
    var r := Lists.InsertAt(s, i, x);
    forall a, b | 0 <= a < b < |r|
      ensures r[a].item != r[b].item
    {
      if a < i && b > i {
        assert r[a] == s[a] && r[b] == s[b - 1];
      }
    }
  }

  /** The references the first Count assignment lists: each predefined item, tagged with its index. */
  function Listed(predefined: seq<Element>): (r: seq<ElementReference>)
    ensures |r| == |predefined|
    ensures forall k :: 0 <= k < |r| ==> r[k] == ElementReference(predefined[k], k)
  {
    seq(|predefined|, k requires 0 <= k < |predefined| => ElementReference(predefined[k], k))
  }

  class UICollection {
    /** The default resource (`itemRes`), if set. */
    const res: Element?
    /** The predefined items; a missing array behaves as an empty one. */
    const predefined: seq<Element>
    var count: int
    var items: seq<ElementReference>
    var initialized: bool

    constructor (res: Element?, predefined: seq<Element>)
      requires DistinctElements(predefined) && (res != null ==> res !in predefined)
      ensures this.res == res && this.predefined == predefined
      ensures count == 0 && items == [] && !initialized && Valid()
    {
      this.res := res;
      this.predefined := predefined;
      count := 0;
      items := [];
      initialized := false;
    }

    ghost function Objects(): set<Element>
      reads this
    {
      set r | r in items :: r.item
    }

    /** Positions below `count` are active, later ones inactive, and no element is listed twice. */
    ghost predicate Valid()
      reads this, Objects(), if res == null then {} else {res}
    {
      && 0 <= count <= |items|
      && Distinct(items)
      && DistinctElements(predefined)
      && (!initialized ==> count == 0 && items == [])
      && (res != null ==> res !in predefined && (initialized ==> !res.active) && forall k :: 0 <= k < |items| ==> items[k].item != res)
      && forall k :: 0 <= k < |items| ==> (items[k].item.active <==> k < count)
    }

    /** Ids of predefined items that do not exist become -1; every other id is kept. */
    function NormalizeItemId(itemId: int): (r: int)
      ensures itemId < 0 ==> r == itemId
      ensures 0 <= itemId < |predefined| ==> r == itemId
      ensures itemId >= |predefined| ==> r == -1
      ensures r == -1 || 0 <= r < |predefined| || r == itemId < 0
    {
      if itemId >= 0 && itemId >= |predefined| then -1 else itemId
    }

    /** The first active position holding `item`, or -1. */
    method IndexOf(item: Element) returns (r: int)
      requires 0 <= count <= |items|
      ensures -1 <= r < count
      ensures r >= 0 ==> items[r].item == item && forall k :: 0 <= k < r ==> items[k].item != item
      ensures r == -1 <==> forall k :: 0 <= k < count ==> items[k].item != item
    {
      var i := 0;
      while i < count
        invariant 0 <= i <= count
        invariant forall k :: 0 <= k < i ==> items[k].item != item
      {
        if items[i].item == item {
          return i;
        }
        i := i + 1;
      }
      return -1;
    }

    /**
     * The Count setter. The first call deactivates the templates and lists the predefined items
     * (tagged with their index); every call then resizes through InitializeListItems.
     */
    method SetCount(value: nat)
      requires Valid()
      requires res == null ==> value <= if initialized then |items| else |predefined|
      modifies this, Objects(), set e | e in predefined, if res == null then {} else {res}
      ensures Valid() && initialized && count == value
      ensures var before := if old(initialized) then old(items) else Listed(predefined);
        && |items| == (if res != null && value > |before| then value else |before|)
        && items[..|before|] == before
        && forall k :: |before| <= k < |items| ==> fresh(items[k].item) && items[k].resId == -1
    {
      if !initialized {
        initialized := true;
        items := [];
        if res != null && res.active {
          res.active := false;
        }
        var i := 0;
        while i < |predefined|
          invariant 0 <= i <= |predefined| && count == 0 && initialized
          invariant |items| == i && forall k :: 0 <= k < i ==> items[k] == ElementReference(predefined[k], k)
          invariant Distinct(items) && forall k :: 0 <= k < i ==> items[k].item != res
          invariant forall k :: 0 <= k < i ==> !predefined[k].active
          invariant res == null || !res.active
        {
          predefined[i].active := false;
          items := items + [ElementReference(predefined[i], i)];
          i := i + 1;
        }
        assert items == Listed(predefined);
      }
      InitializeListItems(value);
    }

    /**
     * InitializeListItems over this collection's fields: with a resource it first grows the list to
     * `target` with fresh clones (tag -1), then activates positions from `count` up to `target` or
     * deactivates them from `count` down to `target`.
     */
    method InitializeListItems(target: nat)
      requires Valid() && initialized
      requires res == null ==> target <= |items|
      modifies this`count, this`items, Objects()
      ensures Valid() && count == target
      ensures |items| == if res != null && target > |old(items)| then target else |old(items)|
      ensures items[..|old(items)|] == old(items)
      ensures forall k :: |old(items)| <= k < |items| ==> fresh(items[k].item) && items[k].resId == -1
    {
      if res != null {
        GrowTo(target);
      }
      if count < target {
        ActivateUpTo(target);
      } else {
        DeactivateDownTo(target);
      }
    }

    /** The first loop of InitializeListItems: fresh inactive clones of the resource, tagged -1, until `target`. */
    method GrowTo(target: nat)
      requires Valid() && initialized && res != null
      modifies this`items
      ensures Valid() && |items| == if target > |old(items)| then target else |old(items)|
      ensures items[..|old(items)|] == old(items)
      ensures forall k :: |old(items)| <= k < |items| ==> fresh(items[k].item) && items[k].resId == -1
    {
      while |items| < target
        invariant Valid() && |old(items)| <= |items| && items[..|old(items)|] == old(items)
        invariant |items| > |old(items)| ==> |items| <= target
        invariant forall k :: |old(items)| <= k < |items| ==> fresh(items[k].item) && items[k].resId == -1
      {
        var item := new Element.Clone(res);
        items := items + [ElementReference(item, -1)];
      }
    }

    /** The activation loop of InitializeListItems: positions from `count` up to `target` become active. */
    method ActivateUpTo(target: nat)
      requires Valid() && count <= target <= |items|
      modifies this`count, Objects()
      ensures Valid() && count == target
    {
      while count < target
        invariant Valid() && count <= target
      {
        items[count].item.active := true;
        count := count + 1;
      }
    }

    /** The deactivation loop of InitializeListItems: positions from `count` down to `target` become inactive. */
    method DeactivateDownTo(target: nat)
      requires Valid() && target <= count
      modifies this`count, Objects()
      ensures Valid() && count == target
    {
      while count > target
        invariant Valid() && target <= count
      {
        count := count - 1;
        items[count].item.active := false;
      }
    }

    /** Whether InsertElement can make an element tagged `itemId` when none is waiting for reuse. */
    predicate CanCreate(itemId: int)
      reads this
    {
      if itemId >= 0 then itemId < |predefined| else res != null
    }

    /**
     * InsertElement: reuses the first inactive element tagged `itemId`, moving it to `insertIndex`, or
     * inserts a clone of the matching template there; either way that element is activated and the
     * active count grows by one.
     */
    method InsertElement(insertIndex: nat, itemId: int) returns (it: Element)
      requires Valid() && initialized && insertIndex <= count
      requires FindReusable(items, count, itemId) == -1 ==> CanCreate(itemId)
      modifies this`count, this`items, Objects()
      ensures Valid() && count == old(count) + 1
      ensures items[insertIndex] == ElementReference(it, itemId) && it.active
      ensures FindReusable(old(items), old(count), itemId) >= 0 ==>
        items == Move(old(items), FindReusable(old(items), old(count), itemId), insertIndex)
      ensures FindReusable(old(items), old(count), itemId) == -1 ==>
        fresh(it) && items == Lists.InsertAt(old(items), insertIndex, ElementReference(it, itemId))
    {
      var listIndex := FindReusableIndex(itemId);
      if listIndex < 0 {
        it := InsertClone(insertIndex, itemId);
      } else {
        it := MoveIntoPlace(listIndex, insertIndex);
      }
    }

    /** The search loop of InsertElement, over the inactive part. */
    method FindReusableIndex(itemId: int) returns (listIndex: int)
      requires 0 <= count <= |items|
      ensures listIndex == FindReusable(items, count, itemId)
    {
      listIndex := -1;
      var i := count;
      while i < |items|
        invariant count <= i <= |items| && listIndex == -1
        invariant forall k :: count <= k < i ==> items[k].resId != itemId
      {
        if items[i].resId == itemId {
          listIndex := i;
          break;
        }
        i := i + 1;
      }
    }

    /** InsertElement when nothing waits for reuse: a clone of the template goes in at `insertIndex`, active. */
    method InsertClone(insertIndex: nat, itemId: int) returns (it: Element)
      requires Valid() && initialized && insertIndex <= count && CanCreate(itemId)
      modifies this`count, this`items
      ensures Valid() && count == old(count) + 1
      ensures fresh(it) && it.active && items == Lists.InsertAt(old(items), insertIndex, ElementReference(it, itemId))
    {
      var template := if itemId >= 0 then predefined[itemId] else res;
      it := new Element.Clone(template);
      if !it.active {
        it.active := true;
      }
      InsertKeeps(items, insertIndex, ElementReference(it, itemId), count, res);
      count := count + 1;
      items := Lists.InsertAt(items, insertIndex, ElementReference(it, itemId));
    }

    /** InsertElement with a reusable element at `listIndex`: it moves to `insertIndex` and is activated. */
    method MoveIntoPlace(listIndex: nat, insertIndex: nat) returns (it: Element)
      requires Valid() && initialized && insertIndex <= count <= listIndex < |items|
      modifies this`count, this`items, items[listIndex].item
      ensures Valid() && count == old(count) + 1
      ensures it == old(items)[listIndex].item && it.active && items == Move(old(items), listIndex, insertIndex)
    {
      ghost var before := items;
      it := items[listIndex].item;
      MoveLayout(before, listIndex, insertIndex, count);
      MoveAvoids(before, listIndex, insertIndex, res);
      MoveDistinct(before, listIndex, insertIndex);
      if !it.active {
        it.active := true;
      }
      count := count + 1;
      items := Move(items, listIndex, insertIndex);
    }

    /** AddElement: InsertElement at the end of the active part. */
    method AddElement(itemId: int) returns (it: Element)
      requires Valid() && initialized
      requires FindReusable(items, count, itemId) == -1 ==> CanCreate(itemId)
      modifies this`count, this`items, Objects()
      ensures Valid() && count == old(count) + 1
      ensures items[old(count)] == ElementReference(it, itemId) && it.active
      ensures items[..old(count)] == old(items)[..old(count)]
      ensures |items| == |old(items)| + if FindReusable(old(items), old(count), itemId) == -1 then 1 else 0
      ensures FindReusable(old(items), old(count), itemId) == -1 <==> fresh(it)
      ensures FindReusable(old(items), old(count), itemId) >= 0 ==>
        items == Move(old(items), FindReusable(old(items), old(count), itemId), old(count))
      ensures FindReusable(old(items), old(count), itemId) == -1 ==>
        items == Lists.InsertAt(old(items), old(count), ElementReference(it, itemId))
    {
      it := InsertElement(count, itemId);
    }

    /**
     * RemoveElement: an active position is taken out, its element deactivated and moved to the end
     * of the list; a position at or past the active count is an error.
     */
    method RemoveElement(index: int) returns (r: Result<Element, RemoveError>)
      requires Valid()
      modifies this`count, this`items, Objects()
      ensures Valid()
      ensures index >= old(count) ==> r == Err(IndexOutOfRange) && items == old(items) && count == old(count) && unchanged(Objects())
      ensures index < 0 ==> r == Err(ArgumentOutOfRange) && items == old(items) && count == old(count) && unchanged(Objects())
      ensures 0 <= index < old(count) ==> r == Ok(old(items)[index].item) && !r.value.active && count == old(count) - 1
      ensures 0 <= index < old(count) ==> items == Lists.RemoveAt(old(items), index) + [old(items)[index]]
    {
      if index >= count {
        return Err(IndexOutOfRange);
      }
      if index < 0 {
        return Err(ArgumentOutOfRange);
      }
      var item := items[index];
      items := Lists.RemoveAt(items, index) + [item];
      item.item.active := false;
      count := count - 1;
      r := Ok(item.item);
    }

    /**
     * SetResourceId: an element with a different tag is replaced in place by one made for (or reused
     * for) the new tag; the old element goes to the first inactive position, deactivated. With the
     * same tag nothing changes.
     */
    method SetResourceId(index: nat, resId: int) returns (it: Element)
      requires Valid() && initialized && index < count
      requires FindReusable(items, count, resId) == -1 ==> CanCreate(resId)
      modifies this`count, this`items, Objects()
      ensures Valid() && count == old(count)
      ensures old(items)[index].resId == resId ==> items == old(items) && it == old(items)[index].item
      ensures old(items)[index].resId != resId ==>
        items[index] == ElementReference(it, resId) && it.active && count < |items|
        && items[count] == old(items)[index] && !old(items)[index].item.active
        && (forall k :: 0 <= k < count && k != index ==> items[k] == old(items)[k])
      ensures old(items)[index].resId != resId && FindReusable(old(items), old(count), resId) >= 0 ==>
        var j := FindReusable(old(items), old(count), resId);
        it == old(items)[j].item && |items| == |old(items)|
        && (forall k :: count < k <= j ==> items[k] == old(items)[k - 1])
        && (forall k :: j < k < |items| ==> items[k] == old(items)[k])
      ensures old(items)[index].resId != resId && FindReusable(old(items), old(count), resId) == -1 ==>
        fresh(it) && |items| == |old(items)| + 1
        && forall k :: count < k < |items| ==> items[k] == old(items)[k - 1]
    {
      var el := items[index];
      if el.resId != resId {
        var last := count;
        ghost var j := FindReusable(items, count, resId);
        assert el.item in Objects();
        var id := AddElement(resId);
        ghost var added := items;
        assert added[..last][index] == el;
        SwapOut(index, last);
        forall k | 0 <= k < last && k != index
          ensures items[k] == old(items)[k]
        {
          assert added[..last][k] == added[k];
        }
        if j >= 0 {
          forall k | last < k < |items|
            ensures k <= j ==> items[k] == old(items)[k - 1]
            ensures j < k ==> items[k] == old(items)[k]
          {
            MoveDown(old(items), j, last, k);
          }
        }
        return id;
      }
      return el.item;
    }

    /**
     * The end of SetResourceId, after the new element was added at `last`: it takes the place of the
     * element at `index`, which goes to `last`, is deactivated, and leaves the active part.
     */
    method SwapOut(index: nat, last: nat)
      requires Valid() && initialized && index < last && last + 1 == count
      modifies this`count, this`items, items[index].item
      ensures Valid() && count == old(count) - 1
      ensures items == Lists.Swap(old(items), index, last) && !old(items)[index].item.active
    {
      var el := items[index];
      SwapLayout(items, index, last, res);
      items := items[index := items[last]][last := el];
      el.item.active := false;
      count := count - 1;
    }
  }
}
