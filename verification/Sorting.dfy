/** `sorted(items)` for an order given as "at most": stable insertion, item by item. */
module Sorting {

  ghost predicate TotalPreorder<T(!new)>(atMost: (T, T) -> bool) {
    && (forall x, y :: atMost(x, y) || atMost(y, x))
    && (forall x, y, z :: atMost(x, y) && atMost(y, z) ==> atMost(x, z))
  }

  ghost predicate Ordered<T>(items: seq<T>, atMost: (T, T) -> bool) {
    forall i, j | 0 <= i < j < |items| :: atMost(items[i], items[j])
  }

  /** After everything at most `item`. */
  function Insert<T>(item: T, items: seq<T>, atMost: (T, T) -> bool): (r: seq<T>)
    ensures |r| == |items| + 1
  {
    if items == [] || !atMost(items[0], item) then [item] + items
    else [items[0]] + Insert(item, items[1..], atMost)
  }

  function Sort<T>(items: seq<T>, atMost: (T, T) -> bool): (r: seq<T>)
    ensures |r| == |items|
  {
    if items == [] then [] else Insert(items[|items| - 1], Sort(items[..|items| - 1], atMost), atMost)
  }

  lemma {:induction false} InsertKeeps<T>(item: T, items: seq<T>, atMost: (T, T) -> bool)
    ensures multiset(Insert(item, items, atMost)) == multiset(items) + multiset{item}
    decreases |items|
  {
    if items != [] && atMost(items[0], item) {
      InsertKeeps(item, items[1..], atMost);
      assert items == [items[0]] + items[1..];
    }
  }

  lemma {:induction false} InsertOrders<T(!new)>(item: T, items: seq<T>, atMost: (T, T) -> bool)
    requires TotalPreorder(atMost) && Ordered(items, atMost)
    ensures Ordered(Insert(item, items, atMost), atMost)
    decreases |items|
  {
    if items == [] {
    } else if atMost(items[0], item) {
      InsertOrders(item, items[1..], atMost);
      InsertIsAbove(items[0], item, items[1..], atMost);
    } else {
      forall j | 0 <= j < |items|
        ensures atMost(item, items[j])
      {
        assert atMost(item, items[0]);
      }
    }
  }

  lemma InsertIsAbove<T>(low: T, item: T, items: seq<T>, atMost: (T, T) -> bool)
    requires atMost(low, item) && forall j | 0 <= j < |items| :: atMost(low, items[j])
    ensures forall j | 0 <= j < |Insert(item, items, atMost)| :: atMost(low, Insert(item, items, atMost)[j])
  {
    InsertKeeps(item, items, atMost);
    var r := Insert(item, items, atMost);
    forall j | 0 <= j < |r|
      ensures atMost(low, r[j])
    {
      assert r[j] in multiset(r);
      assert r[j] in items || r[j] == item;
    }
  }

  /** Sorting orders the items and keeps them all. */
  lemma {:induction false} SortOrders<T(!new)>(items: seq<T>, atMost: (T, T) -> bool)
    requires TotalPreorder(atMost)
    ensures Ordered(Sort(items, atMost), atMost)
    ensures multiset(Sort(items, atMost)) == multiset(items)
    decreases |items|
  {
    if items != [] {
      var init, last := items[..|items| - 1], items[|items| - 1];
      SortOrders(init, atMost);
      InsertOrders(last, Sort(init, atMost), atMost);
      InsertKeeps(last, Sort(init, atMost), atMost);
      assert items == init + [last];
    }
  }

  lemma SortMember<T(!new)>(items: seq<T>, atMost: (T, T) -> bool, x: T)
    requires TotalPreorder(atMost)
    ensures x in Sort(items, atMost) <==> x in items
  {
    SortOrders(items, atMost);
    assert x in items <==> x in multiset(items);
    assert x in Sort(items, atMost) <==> x in multiset(Sort(items, atMost));
  }

  lemma {:induction false} InsertLast<T>(item: T, items: seq<T>, atMost: (T, T) -> bool)
    requires forall i | 0 <= i < |items| :: atMost(items[i], item)
    ensures Insert(item, items, atMost) == items + [item]
    decreases |items|
  {
    if items != [] {
      InsertLast(item, items[1..], atMost);
      assert items + [item] == [items[0]] + (items[1..] + [item]);
    }
  }

  lemma {:induction false} SortOfOrdered<T>(items: seq<T>, atMost: (T, T) -> bool)
    requires Ordered(items, atMost)
    ensures Sort(items, atMost) == items
    decreases |items|
  {
    if items != [] {
      var init := items[..|items| - 1];
      SortOfOrdered(init, atMost);
      InsertLast(items[|items| - 1], init, atMost);
    }
  }

  /** A list is its own sorted form exactly if it is ordered. */
  lemma SortedExactlyIfOrdered<T(!new)>(items: seq<T>, atMost: (T, T) -> bool)
    requires TotalPreorder(atMost)
    ensures items == Sort(items, atMost) <==> Ordered(items, atMost)
  {
    SortOrders(items, atMost);
    if Ordered(items, atMost) {
      SortOfOrdered(items, atMost);
    }
  }
}
