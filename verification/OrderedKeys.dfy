/** The keys of a Python `OrderedDict`, from the least to the most recently moved to the end. */
module OrderedKeys {

  type Key = nat

  predicate Distinct(order: seq<Key>) {
    forall i, j | 0 <= i < j < |order| :: order[i] != order[j]
  }

  /** The keys outside `gone`, in order. */
  function Drop(order: seq<Key>, gone: set<Key>): seq<Key> {
    if order == [] then []
    else Drop(order[..|order| - 1], gone) + (if order[|order| - 1] in gone then [] else [order[|order| - 1]])
  }

  lemma {:induction false} DropFacts(order: seq<Key>, gone: set<Key>)
    ensures |Drop(order, gone)| <= |order|
    ensures forall k :: k in Drop(order, gone) <==> k in order && k !in gone
    ensures Distinct(order) ==> Distinct(Drop(order, gone))
    ensures forall k | k in order && k in gone :: |Drop(order, gone)| < |order|
  {
    if order != [] {
      var n := |order| - 1;
      var rest := order[..n];
      DropFacts(rest, gone);
      forall k ensures k in order <==> k in rest || k == order[n] {
        assert order == rest + [order[n]];
      }
      if Distinct(order) {
        assert Distinct(rest) && order[n] !in rest;
        assert order[n] !in Drop(rest, gone);
      }
    }
  }

  lemma {:induction false} DropNothing(order: seq<Key>)
    ensures Drop(order, {}) == order
  {
    if order != [] {
      DropNothing(order[..|order| - 1]);
    }
  }

  lemma {:induction false} DropLast(order: seq<Key>, last: Key, gone: set<Key>)
    ensures Drop(order + [last], gone) == Drop(order, gone) + (if last in gone then [] else [last])
  {
  }

  lemma {:induction false} DropOneMore(order: seq<Key>, gone: set<Key>, k: Key)
    ensures Drop(Drop(order, gone), {k}) == Drop(order, gone + {k})
  {
    if order != [] {
      var n := |order| - 1;
      DropOneMore(order[..n], gone, k);
      if order[n] !in gone {
        DropLast(Drop(order[..n], gone), order[n], {k});
      } else {
        assert Drop(order, gone) == Drop(order[..n], gone) && Drop(order, gone + {k}) == Drop(order[..n], gone + {k});
      }
    }
  }

  ghost function Keys(order: seq<Key>): set<Key> {
    set k | k in order
  }

  /** Distinct keys are as many as their set. */
  lemma {:induction false} CountKeys(order: seq<Key>)
    requires Distinct(order)
    ensures |Keys(order)| == |order|
  {
    if order != [] {
      var n := |order| - 1;
      CountKeys(order[..n]);
      assert Keys(order) == Keys(order[..n]) + {order[n]};
      assert order[n] !in order[..n];
    } else {
      assert Keys(order) == {};
    }
  }

  lemma {:induction false} DropExactlyOne(order: seq<Key>, k: Key)
    requires Distinct(order) && k in order
    ensures |Drop(order, {k})| == |order| - 1
  {
    var n := |order| - 1;
    if order[n] == k {
      DropAbsent(order[..n], {k});
    } else {
      DropExactlyOne(order[..n], k);
    }
  }

  lemma {:induction false} DropAbsent(order: seq<Key>, gone: set<Key>)
    requires forall k | k in gone :: k !in order
    ensures Drop(order, gone) == order
  {
    if order != [] {
      DropAbsent(order[..|order| - 1], gone);
    }
  }
}
