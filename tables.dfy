/**
 * Id-keyed tables as the stores keep them: a map from id to record together with the order in
 * which the keys are listed, and the counter that hands out the next id.
 */
module Tables {
  /** Strictly ascending. */
  predicate Ascending(s: seq<int>) {
    forall i, j :: 0 <= i < j < |s| ==> s[i] < s[j]
  }

  /** The values of `m` listed in the key order `order` (`Array.from(map.values())`). */
  function ValuesInOrder<V>(order: seq<int>, m: map<int, V>): (r: seq<V>)
    requires forall k :: k in order ==> k in m
    ensures |r| == |order|
    decreases |order|
  {
    if order == [] then []
    else
      var init, last := order[..|order| - 1], order[|order| - 1];
      assert order == init + [last];
      ValuesInOrder(init, m) + [m[last]]
  }

  /** Listing depends only on the values under the listed keys. */
  lemma {:induction false} ValuesFrame<V>(order: seq<int>, m: map<int, V>, m': map<int, V>)
    requires forall k :: k in order ==> k in m && k in m' && m[k] == m'[k]
    ensures ValuesInOrder(order, m) == ValuesInOrder(order, m')
    decreases |order|
  {
    if order != [] {
      var init := order[..|order| - 1];
      assert order == init + [order[|order| - 1]];
      ValuesFrame(init, m, m');
    }
  }

  /** Inserting a new key appends its value to the listing. */
  lemma ValuesAppend<V>(order: seq<int>, m: map<int, V>, k: int, v: V)
    requires k !in order && forall x :: x in order ==> x in m
    ensures ValuesInOrder(order + [k], m[k := v]) == ValuesInOrder(order, m) + [v]
  {
    assert (order + [k])[..|order|] == order;
    ValuesFrame(order, m[k := v], m);
  }

  /** `order` without `k`. */
  function Remove(order: seq<int>, k: int): (r: seq<int>)
    ensures forall x :: x in r <==> x in order && x != k
    decreases |order|
  {
    if order == [] then []
    else
      var init, last := order[..|order| - 1], order[|order| - 1];
      assert order == init + [last];
      Remove(init, k) + (if last == k then [] else [last])
  }

  lemma {:induction false} RemoveAscending(order: seq<int>, k: int)
    requires Ascending(order)
    ensures Ascending(Remove(order, k))
    decreases |order|
  {
    if order != [] {
      var init, last := order[..|order| - 1], order[|order| - 1];
      assert order == init + [last];
      assert Ascending(init);
      RemoveAscending(init, k);
      var r := Remove(init, k);
      forall x | x in r ensures x < last {
        var i :| 0 <= i < |init| && init[i] == x;
      }
      if last != k {
        AppendAscending(r, last);
      }
    }
  }

  /** Removing a key keeps the other keys in the same relative order. */
  lemma {:induction false} RemoveAbsent(order: seq<int>, k: int)
    requires k !in order
    ensures Remove(order, k) == order
    decreases |order|
  {
    if order != [] {
      var init := order[..|order| - 1];
      assert order == init + [order[|order| - 1]];
      RemoveAbsent(init, k);
    }
  }

  lemma AppendAscending(order: seq<int>, k: int)
    requires Ascending(order) && forall x :: x in order ==> x < k
    ensures Ascending(order + [k])
  {
    forall i, j | 0 <= i < j < |order + [k]| ensures (order + [k])[i] < (order + [k])[j] {
      if j == |order| {
        assert order[i] in order;
      }
    }
  }

  /**
   * A table: the order lists exactly the keys, ascending; every record sits under its own id,
   * and every id is below the counter.
   */
  ghost predicate TableValid<V>(m: map<int, V>, order: seq<int>, next: int, idOf: V -> int) {
    (forall id :: id in m <==> id in order) && Ascending(order) &&
    (forall id :: id in m ==> idOf(m[id]) == id && id < next)
  }

  /** Storing a record under the counter value and then incrementing the counter keeps a table valid. */
  lemma TableInsert<V>(m: map<int, V>, order: seq<int>, next: int, idOf: V -> int, v: V)
    requires TableValid(m, order, next, idOf) && idOf(v) == next
    ensures TableValid(m[next := v], order + [next], next + 1, idOf)
    ensures ValuesInOrder(order + [next], m[next := v]) == ValuesInOrder(order, m) + [v]
  {
    InsertValid(m, order, next, idOf, v);
    ValuesAppend(order, m, next, v);
  }

  lemma InsertValid<V>(m: map<int, V>, order: seq<int>, next: int, idOf: V -> int, v: V)
    requires TableValid(m, order, next, idOf) && idOf(v) == next
    ensures TableValid(m[next := v], order + [next], next + 1, idOf)
  {
    AppendAscending(order, next);
    var m', order' := m[next := v], order + [next];
    forall id ensures id in m' <==> id in order' {
      assert id in order' <==> id in order || id == next;
    }
    forall id | id in m' ensures idOf(m'[id]) == id && id < next + 1 {
      if id != next {
        assert m'[id] == m[id];
      }
    }
  }

  /** Replacing a record by one with the same id keeps a table valid. */
  lemma TableReplace<V>(m: map<int, V>, order: seq<int>, next: int, idOf: V -> int, id: int, v: V)
    requires TableValid(m, order, next, idOf) && id in m && idOf(v) == id
    ensures TableValid(m[id := v], order, next, idOf)
  {
  }

  /** Deleting a key keeps a table valid. */
  lemma TableDelete<V>(m: map<int, V>, order: seq<int>, next: int, idOf: V -> int, id: int)
    requires TableValid(m, order, next, idOf)
    ensures TableValid(m - {id}, Remove(order, id), next, idOf)
  {
    RemoveAscending(order, id);
  }
}
