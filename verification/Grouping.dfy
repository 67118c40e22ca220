/**
 Grouping by a key: every group in the order of its items, every item in one group.
 */
module Grouping {
  import opened Base

  /** What is shown of the items with key `k`, in order. */
  function Picked<T, K(==), V>(items: seq<T>, key: T -> K, view: T -> V, k: K): seq<V> {
    if items == [] then []
    else
      var last := items[|items| - 1];
      Picked(items[..|items| - 1], key, view, k) + if key(last) == k then [view(last)] else []
  }

  /** All items as they are shown. */
  function Shown<T, V>(items: seq<T>, view: T -> V): seq<V> {
    if items == [] then [] else Shown(items[..|items| - 1], view) + [view(items[|items| - 1])]
  }

  /** The groups of several keys, one after the other. */
  function Gathered<T, K(==), V>(keys: seq<K>, items: seq<T>, key: T -> K, view: T -> V): seq<V> {
    if keys == [] then []
    else Gathered(keys[..|keys| - 1], items, key, view) + Picked(items, key, view, keys[|keys| - 1])
  }

  lemma PickedSnoc<T, K, V>(items: seq<T>, item: T, key: T -> K, view: T -> V, k: K)
    ensures Picked(items + [item], key, view, k)
         == Picked(items, key, view, k) + if key(item) == k then [view(item)] else []
  {
    assert (items + [item])[..|items + [item]| - 1] == items;
  }

  lemma {:induction false} InPicked<T, K, V>(items: seq<T>, key: T -> K, view: T -> V, k: K, v: V)
    ensures v in Picked(items, key, view, k) <==> exists item :: item in items && key(item) == k && view(item) == v
  {
    if items != [] {
      var front, last := items[..|items| - 1], items[|items| - 1];
      InPicked(front, key, view, k, v);
      assert items == front + [last];
    }
  }

  lemma {:induction false} PickedNone<T, K, V>(items: seq<T>, key: T -> K, view: T -> V, k: K)
    requires forall item :: item in items ==> key(item) != k
    ensures Picked(items, key, view, k) == []
  {
    if items != [] {
      PickedNone(items[..|items| - 1], key, view, k);
    }
  }

  function Extra<T, K(==), V>(keys: seq<K>, item: T, key: T -> K, view: T -> V): multiset<V> {
    if key(item) in keys then multiset{view(item)} else multiset{}
  }

  lemma {:induction false} GatheredSnoc<T, K, V>(keys: seq<K>, items: seq<T>, item: T, key: T -> K, view: T -> V)
    requires Distinct(keys)
    ensures multiset(Gathered(keys, items + [item], key, view))
         == multiset(Gathered(keys, items, key, view)) + Extra(keys, item, key, view)
  {
    if keys == [] {
      GatheredNone(items + [item], key, view);
      GatheredNone(items, key, view);
    } else {
      var front, k := keys[..|keys| - 1], keys[|keys| - 1];
      assert keys == front + [k];
      GatheredSnoc(front, items, item, key, view);
      GatheredLast(front, k, items, item, key, view);
      KeysSnoc(front, k, items + [item], key, view);
      KeysSnoc(front, k, items, key, view);
    }
  }

  lemma GatheredNone<T, K, V>(items: seq<T>, key: T -> K, view: T -> V)
    ensures Gathered([], items, key, view) == []
  {
  }

  lemma KeysSnoc<T, K, V>(front: seq<K>, k: K, items: seq<T>, key: T -> K, view: T -> V)
    ensures Gathered(front + [k], items, key, view) == Gathered(front, items, key, view) + Picked(items, key, view, k)
  {
    assert (front + [k])[..|front + [k]| - 1] == front;
  }

  lemma GatheredLast<T, K, V>(front: seq<K>, k: K, items: seq<T>, item: T, key: T -> K, view: T -> V)
    requires Distinct(front + [k])
    requires multiset(Gathered(front, items + [item], key, view))
          == multiset(Gathered(front, items, key, view)) + Extra(front, item, key, view)
    ensures multiset(Gathered(front, items + [item], key, view) + Picked(items + [item], key, view, k))
         == multiset(Gathered(front, items, key, view) + Picked(items, key, view, k)) + Extra(front + [k], item, key, view)
  {
    PickedSnoc(items, item, key, view, k);
    LastExtra(front, k, item, key, view);
    AddTogether(Gathered(front, items + [item], key, view), Gathered(front, items, key, view),
                Picked(items, key, view, k), if key(item) == k then [view(item)] else [], Extra(front, item, key, view));
  }

  lemma LastExtra<T, K, V>(front: seq<K>, k: K, item: T, key: T -> K, view: T -> V)
    requires Distinct(front + [k])
    ensures Extra(front + [k], item, key, view)
         == Extra(front, item, key, view) + multiset(if key(item) == k then [view(item)] else [])
  {
    DistinctParts(front, [k]);
    assert k in [k] && k !in front;
  }

  lemma AddTogether<V>(more: seq<V>, less: seq<V>, own: seq<V>, last: seq<V>, extra: multiset<V>)
    requires multiset(more) == multiset(less) + extra
    ensures multiset(more + (own + last)) == multiset(less + own) + (extra + multiset(last))
  {
  }

  lemma {:induction false} GatheredNothing<T, K, V>(keys: seq<K>, key: T -> K, view: T -> V)
    ensures Gathered(keys, [], key, view) == []
  {
    if keys != [] {
      GatheredNothing(keys[..|keys| - 1], key, view);
    }
  }

  lemma SumOfOne<V>(a: seq<V>, x: V)
    ensures multiset(a + [x]) == multiset(a) + multiset{x}
  {
  }

  /** Induction over a list, its last item last. */
  lemma {:induction false} SnocInduction<T(!new)>(p: seq<T> -> bool, items: seq<T>)
    requires p([])
    requires forall xs: seq<T>, x: T {:trigger p(xs + [x])} :: p(xs) && x in items ==> p(xs + [x])
    ensures p(items)
  {
    if items != [] {
      var front, last := items[..|items| - 1], items[|items| - 1];
      assert items == front + [last];
      SnocInduction(p, front);
    }
  }

  /** Over distinct keys, every item is in one group, once. */
  lemma GatheredAll<T(!new), K, V>(keys: seq<K>, items: seq<T>, key: T -> K, view: T -> V)
    requires Distinct(keys) && forall item :: item in items ==> key(item) in keys
    ensures multiset(Gathered(keys, items, key, view)) == multiset(Shown(items, view))
  {
    var p := (xs: seq<T>) => multiset(Gathered(keys, xs, key, view)) == multiset(Shown(xs, view));
    GatheredNothing(keys, key, view);
    forall xs: seq<T>, x: T | p(xs) && x in items ensures p(xs + [x]) {
      OneItemMore(keys, xs, x, key, view);
    }
    SnocInduction(p, items);
  }

  lemma OneItemMore<T, K, V>(keys: seq<K>, items: seq<T>, item: T, key: T -> K, view: T -> V)
    requires Distinct(keys) && key(item) in keys
    requires multiset(Gathered(keys, items, key, view)) == multiset(Shown(items, view))
    ensures multiset(Gathered(keys, items + [item], key, view)) == multiset(Shown(items + [item], view))
  {
    GatheredSnoc(keys, items, item, key, view);
    ShownSnoc(items, item, view);
  }

  lemma ShownSnoc<T, V>(items: seq<T>, item: T, view: T -> V)
    ensures multiset(Shown(items + [item], view)) == multiset(Shown(items, view)) + multiset{view(item)}
  {
    assert (items + [item])[..|items + [item]| - 1] == items;
    SumOfOne(Shown(items, view), view(item));
  }
}
