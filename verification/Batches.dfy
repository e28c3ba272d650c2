/** A batch query: the rows that meet its `where`, in the order of its `orderBy`, cut off by its `take`. */
module Batches {
  import opened Options
  import opened Sets
  import opened Sorting

  /** An order in which the database lists rows: the sort keys, and some rule for rows with equal keys. */
  ghost predicate IsTotal<T(!new)>(before: (T, T) -> bool) {
    IsStrict(before) && forall a, b :: a != b ==> before(a, b) || before(b, a)
  }

  /** Two sort keys, the first of which may be null. */
  datatype SortKey = SortKey(first: Option<int>, second: int)

  /** Both ascending; nulls come last. */
  predicate KeyLess(a: SortKey, b: SortKey) {
    if a.first == b.first then a.second < b.second
    else a.first.Some? && (b.first.None? || a.first.value < b.first.value)
  }

  /** The order by keys; `tie` is how the database happens to list rows with equal keys. */
  function ByKey<T>(keys: T -> SortKey, tie: T -> int): (T, T) -> bool {
    (a, b) => KeyLess(keys(a), keys(b)) || (keys(a) == keys(b) && tie(a) < tie(b))
  }

  ghost predicate TellsApart<T(!new)>(tie: T -> int) {
    forall a, b :: tie(a) == tie(b) ==> a == b
  }

  lemma ByKeyIsTotal<T(!new)>(keys: T -> SortKey, tie: T -> int)
    requires TellsApart(tie)
    ensures IsTotal(ByKey(keys, tie))
  {
    var before := ByKey(keys, tie);
    forall a, b | a != b ensures before(a, b) || before(b, a) {
      assert tie(a) != tie(b);
    }
  }

  function Take<T>(ids: seq<T>, limit: nat): seq<T> {
    if |ids| <= limit then ids else ids[..limit]
  }

  ghost function Ahead<T(!new)>(due: set<T>, id: T, before: (T, T) -> bool): set<T> {
    set x | x in due && before(x, id)
  }

  function Elements<T>(ids: seq<T>): set<T> {
    set x | x in ids
  }

  /** The batch: due rows in order, as many as the limit allows, and none left out that comes before one of them. */
  ghost predicate IsBatch<T(!new)>(ids: seq<T>, due: set<T>, before: (T, T) -> bool, limit: nat) {
    && Increasing(ids, before)
    && |ids| == (if |due| < limit then |due| else limit)
    && Elements(ids) <= due
    && forall x, y | x in ids && y in due && y !in ids :: before(x, y)
  }

  lemma BatchIsDueOnce<T(!new)>(ids: seq<T>, due: set<T>, before: (T, T) -> bool, limit: nat)
    requires IsStrict(before) && IsBatch(ids, due, before, limit)
    ensures forall id | id in ids :: id in due
    ensures forall i, k | 0 <= i < k < |ids| :: ids[i] != ids[k]
  {
    forall id | id in ids ensures id in due {
      assert id in Elements(ids);
    }
  }

  /** A list without repetitions has as many rows as its set of rows. */
  lemma {:induction false} ElementsSize<T(!new)>(ids: seq<T>, before: (T, T) -> bool)
    requires IsStrict(before) && Increasing(ids, before)
    ensures |Elements(ids)| == |ids|
  {
    if ids != [] {
      var rest := ids[1..];
      ElementsSize(rest, before);
      assert ids == [ids[0]] + rest;
      assert Elements(ids) == {ids[0]} + Elements(rest);
      assert ids[0] !in Elements(rest);
    }
  }

  /** Sorting the due rows and taking the first ones gives the batch. */
  lemma SortedTakeIsBatch<T(!new)>(ids: seq<T>, due: set<T>, before: (T, T) -> bool, limit: nat)
    requires IsTotal(before) && Elements(ids) == due
    requires forall i, k | 0 <= i < k < |ids| :: ids[i] != ids[k]
    ensures IsBatch(Take(Sort(ids, before), limit), due, before, limit)
  {
    var all := Sort(ids, before);
    SortSorts(ids, before);
    SameElements(ids, all);
    assert Elements(all) == Elements(ids);
    ElementsSize(all, before);
    var batch := Take(all, limit);
    assert forall k | 0 <= k < |batch| :: all[k] in batch;
    forall x, y | x in batch && y in due && y !in batch ensures before(x, y) {
      var i :| 0 <= i < |batch| && batch[i] == x;
      var k :| 0 <= k < |all| && all[k] == y;
    }
  }

  /** A due row is in the batch iff fewer than `limit` due rows come before it. */
  lemma SelectedIffFewAhead<T(!new)>(ids: seq<T>, due: set<T>, before: (T, T) -> bool, limit: nat, id: T)
    requires IsTotal(before) && IsBatch(ids, due, before, limit) && id in due
    ensures id in ids <==> |Ahead(due, id, before)| < limit
    ensures id !in ids ==> Elements(ids) <= Ahead(due, id, before) && |Elements(ids)| == limit
  {
    var ahead := Ahead(due, id, before);
    ElementsSize(ids, before);
    if id in ids {
      var i :| 0 <= i < |ids| && ids[i] == id;
      assert ahead <= Elements(ids[..i]) by {
        forall x | x in ahead ensures x in ids[..i] {
          var k :| 0 <= k < |ids| && ids[k] == x;
        }
      }
      SubsetSize(ahead, Elements(ids[..i]));
      ElementsSize(ids[..i], before);
    } else {
      assert Elements(ids) <= ahead;
      SubsetSize(Elements(ids), ahead);
      if |due| < limit {
        SubsetSize(Elements(ids), due);
        assert false;
      }
    }
  }

  /** A batch depends on the keys of the due rows only. */
  lemma OnlyDueKeysMatter<T(!new)>(
      ids: seq<T>, due: set<T>, keys: T -> SortKey, keys': T -> SortKey, tie: T -> int, limit: nat)
    requires forall x | x in due :: keys(x) == keys'(x)
    requires IsBatch(ids, due, ByKey(keys, tie), limit)
    ensures IsBatch(ids, due, ByKey(keys', tie), limit)
  {
    forall x | x in ids ensures x in due {
      assert x in Elements(ids);
    }
    forall x, y | x in ids && y in due && y !in ids ensures ByKey(keys', tie)(x, y) {
      assert ByKey(keys, tie)(x, y);
    }
    forall i, k | 0 <= i < k < |ids| ensures ByKey(keys', tie)(ids[i], ids[k]) {
      assert ByKey(keys, tie)(ids[i], ids[k]);
    }
  }

  /** What each round takes out of a dwindling set bounds the number of rounds. */
  lemma {:induction false} RoundsAreBounded<T>(left: seq<set<T>>, used: seq<set<T>>, size: nat)
    requires |left| == |used| && left != []
    requires forall k | 0 <= k < |left| :: used[k] <= left[k] && |used[k]| == size
    requires forall k | 0 <= k < |left| - 1 :: left[k + 1] <= left[k] - used[k]
    ensures |left| * size <= |left[0]|
    decreases |left|
  {
    if |left| == 1 {
      SubsetSize(used[0], left[0]);
    } else {
      RoundsAreBounded(left[1..], used[1..], size);
      SubsetSize(left[0 + 1], left[0] - used[0]);
      assert |left[0] - used[0]| == |left[0]| - |used[0]|;
      assert |left| * size == (|left| - 1) * size + size;
    }
  }
}
