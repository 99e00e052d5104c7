/** Stable newest-first ordering of the selected rows of a table. */
module Sorting {
  import opened Common
  import opened Rows

  /** Row `x` comes before row `y`: a larger key, or the same key and an earlier position. */
  predicate Ahead(keys: seq<Option<Key>>, x: RowId, y: RowId)
    requires x < |keys| && y < |keys| && keys[x].Some? && keys[y].Some?
  {
    Less(keys[y].value, keys[x].value)
    || (!Less(keys[x].value, keys[y].value) && x < y)
  }

  ghost predicate Selected(keys: seq<Option<Key>>, order: seq<RowId>) {
    forall a | 0 <= a < |order| :: order[a] < |keys| && keys[order[a]].Some?
  }

  /** The order lists exactly the selected rows among the first `n`, each once, newest first,
      rows with equal keys in table order. */
  ghost predicate StableNewestFirst(keys: seq<Option<Key>>, n: nat, order: seq<RowId>) {
    && n <= |keys|
    && Selected(keys, order)
    && (forall a | 0 <= a < |order| :: order[a] < n)
    && (forall k | 0 <= k < n && keys[k].Some? :: k in order)
    && (forall a, b | 0 <= a < b < |order| :: Ahead(keys, order[a], order[b]))
  }

  function Insert(keys: seq<Option<Key>>, order: seq<RowId>, x: RowId): seq<RowId>
    requires Selected(keys, order) && x < |keys| && keys[x].Some?
  {
    if order == [] then [x]
    else if Ahead(keys, x, order[0]) then [x] + order
    else [order[0]] + Insert(keys, order[1..], x)
  }

  function SortUpTo(keys: seq<Option<Key>>, n: nat): (order: seq<RowId>)
    requires n <= |keys|
    ensures StableNewestFirst(keys, n, order)
  {
    if n == 0 then []
    else
      var before := SortUpTo(keys, n - 1);
      if keys[n - 1].None? then before
      else
        var r := Insert(keys, before, n - 1);
        InsertAdds(keys, before, n - 1);
        InsertKeepsOrder(keys, before, n - 1);
        assert forall a | 0 <= a < |r| :: r[a] in r;
        r
  }

  function NewestFirst(keys: seq<Option<Key>>): (order: seq<RowId>)
    ensures StableNewestFirst(keys, |keys|, order)
  {
    SortUpTo(keys, |keys|)
  }

  /** Distinct rows are always ordered, and consistently. */
  lemma AheadIsTotal(keys: seq<Option<Key>>, x: RowId, y: RowId)
    requires x < |keys| && y < |keys| && keys[x].Some? && keys[y].Some? && x != y
    ensures Ahead(keys, x, y) || Ahead(keys, y, x)
  {
  }

  lemma AheadIsTransitive(keys: seq<Option<Key>>, x: RowId, y: RowId, z: RowId)
    requires x < |keys| && y < |keys| && z < |keys| && keys[x].Some? && keys[y].Some? && keys[z].Some?
    requires Ahead(keys, x, y) && Ahead(keys, y, z)
    ensures Ahead(keys, x, z)
  {
  }

  ghost predicate Ordered(keys: seq<Option<Key>>, order: seq<RowId>)
    requires Selected(keys, order)
  {
    forall a, b | 0 <= a < b < |order| :: Ahead(keys, order[a], order[b])
  }

  lemma {:induction false} InsertAdds(keys: seq<Option<Key>>, order: seq<RowId>, x: RowId)
    requires Selected(keys, order) && x < |keys| && keys[x].Some?
    ensures Selected(keys, Insert(keys, order, x))
    ensures forall k :: k in Insert(keys, order, x) <==> k == x || k in order
    decreases |order|
  {
    hide Ahead;
    if order != [] && !Ahead(keys, x, order[0]) {
      InsertAdds(keys, order[1..], x);
    }
  }

  /** A row put in front of an ordered list it precedes. */
  lemma InFront(keys: seq<Option<Key>>, x: RowId, order: seq<RowId>)
    requires Selected(keys, order) && Ordered(keys, order) && x < |keys| && keys[x].Some?
    requires forall k | k in order :: k < |keys| && keys[k].Some? && Ahead(keys, x, k)
    ensures Selected(keys, [x] + order) && Ordered(keys, [x] + order)
  {
    hide Ahead;
    var r := [x] + order;
    forall a, b | 0 <= a < b < |r| ensures Ahead(keys, r[a], r[b]) {
      assert r[b] == order[b - 1] && order[b - 1] in order;
      assert a > 0 ==> r[a] == order[a - 1];
    }
  }

  lemma {:induction false} InsertKeepsOrder(keys: seq<Option<Key>>, order: seq<RowId>, x: RowId)
    requires Selected(keys, order) && x < |keys| && keys[x].Some?
    requires x !in order && Ordered(keys, order)
    ensures Selected(keys, Insert(keys, order, x)) && Ordered(keys, Insert(keys, order, x))
    decreases |order|
  {
    hide Ahead;
    if order == [] {
    } else if Ahead(keys, x, order[0]) {
      forall k | k in order ensures k < |keys| && keys[k].Some? && Ahead(keys, x, k) {
        var b :| 0 <= b < |order| && order[b] == k;
        if b > 0 { AheadIsTransitive(keys, x, order[0], k); }
      }
      InFront(keys, x, order);
    } else {
      AheadIsTotal(keys, x, order[0]);
      InsertKeepsOrder(keys, order[1..], x);
      InsertAdds(keys, order[1..], x);
      InFront(keys, order[0], Insert(keys, order[1..], x));
    }
  }

  /** The head of the ordering is exactly the row the first-maximum choice picks, ties included. */
  lemma HeadIsFirstMax(keys: seq<Option<Key>>)
    ensures var order := NewestFirst(keys);
            FirstMax(keys) == if order == [] then None else Some(order[0])
  {
    var order := NewestFirst(keys);
    if order == [] {
      assert forall k | 0 <= k < |keys| :: keys[k].None?;
    } else {
      forall j | 0 <= j < |keys| && keys[j].Some?
        ensures !Less(keys[order[0]].value, keys[j].value)
        ensures j < order[0] ==> Less(keys[j].value, keys[order[0]].value)
      {
        var b :| 0 <= b < |order| && order[b] == j;
        if b > 0 { assert Ahead(keys, order[0], order[b]); }
      }
      FirstMaxUnique(keys, order[0]);
    }
  }
}
