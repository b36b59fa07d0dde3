/** `groupby(keys).shift(d)` and `groupby(keys).diff()`: each row looks back
    to the d-th earlier row, in the table's current order, that has the same
    group key. */
module Grouping {
  import opened Wrappers

  /** Positions below `n` whose key is `k`, in increasing order. */
  function Matches<K(==)>(keys: seq<K>, k: K, n: nat): (r: seq<nat>)
    requires n <= |keys|
    ensures forall j :: 0 <= j < |r| ==> r[j] < n && keys[r[j]] == k
    ensures forall a, b :: 0 <= a < b < |r| ==> r[a] < r[b]
    ensures forall j :: 0 <= j < n && keys[j] == k ==> j in r
    decreases n
  {
    if n == 0 then []
    else Matches(keys, k, n - 1) + (if keys[n - 1] == k then [n - 1] else [])
  }

  /** Position of the d-th earlier row of row i's group, if there is one. */
  function PrevInGroup<K(==)>(keys: seq<K>, i: nat, d: nat): (r: Option<nat>)
    requires i < |keys| && 1 <= d
    ensures r.Some? ==> r.value < i && keys[r.value] == keys[i]
  {
    var m := Matches(keys, keys[i], i);
    if d <= |m| then Some(m[|m| - d]) else None
  }

  /** Equal keys form one contiguous block. */
  predicate Grouped<K(==)>(keys: seq<K>)
  {
    forall a, b, c :: 0 <= a < b < c < |keys| && keys[a] == keys[c] ==> keys[b] == keys[a]
  }

  /** First position of the block that holds position i. */
  function GroupStart<K(==)>(keys: seq<K>, i: nat): (g: nat)
    requires i < |keys|
    ensures g <= i
    ensures forall j :: g <= j <= i ==> keys[j] == keys[i]
    ensures g == 0 || keys[g - 1] != keys[i]
  {
    if i == 0 || keys[i - 1] != keys[i] then i else GroupStart(keys, i - 1)
  }

  function Range(a: nat, b: nat): (r: seq<nat>)
    requires a <= b
    ensures |r| == b - a
    ensures forall j :: 0 <= j < |r| ==> r[j] == a + j
  {
    seq(b - a, j requires 0 <= j < b - a => a + j)
  }

  lemma {:induction false} MatchesNone<K>(keys: seq<K>, k: K, n: nat)
    requires n <= |keys|
    requires forall j :: 0 <= j < n ==> keys[j] != k
    ensures Matches(keys, k, n) == []
    decreases n
  {
    if n > 0 {
      MatchesNone(keys, k, n - 1);
    }
  }

  /** In a grouped table the earlier rows of i's group are exactly the
      positions from the start of its block up to i. */
  lemma {:induction false} MatchesInBlock<K>(keys: seq<K>, i: nat)
    requires i < |keys| && Grouped(keys)
    ensures Matches(keys, keys[i], i) == Range(GroupStart(keys, i), i)
    decreases i
  {
    if i == 0 {
      assert Range(0, 0) == [];
    } else if keys[i - 1] != keys[i] {
      MatchesAtBlockStart(keys, i);
    } else {
      MatchesInBlock(keys, i - 1);
      var g := GroupStart(keys, i);
      calc {
        Matches(keys, keys[i], i);
        Matches(keys, keys[i - 1], i - 1) + [i - 1];
        Range(GroupStart(keys, i - 1), i - 1) + [i - 1];
        { assert g == GroupStart(keys, i - 1); }
        Range(g, i - 1) + [i - 1];
        { RangeSnoc(g, i - 1); }
        Range(g, i);
      }
    }
  }

  /** The first row of a block has no earlier row of its group. */
  lemma MatchesAtBlockStart<K>(keys: seq<K>, i: nat)
    requires 0 < i < |keys| && Grouped(keys) && keys[i - 1] != keys[i]
    ensures Matches(keys, keys[i], i) == Range(GroupStart(keys, i), i)
  {
    assert forall j :: 0 <= j < i ==> keys[j] != keys[i];
    MatchesNone(keys, keys[i], i);
    assert GroupStart(keys, i) == i && Range(i, i) == [];
  }

  lemma RangeSnoc(a: nat, b: nat)
    requires a <= b
    ensures Range(a, b) + [b] == Range(a, b + 1)
  {
  }

  /** In a grouped table, looking back d rows within the group is looking
      back d rows in the table, provided that row is still in the group. */
  lemma PrevInGroupIsAdjacent<K>(keys: seq<K>, i: nat, d: nat)
    requires i < |keys| && 1 <= d && Grouped(keys)
    ensures PrevInGroup(keys, i, d) == if d <= i && keys[i - d] == keys[i] then Some(i - d) else None
  {
    MatchesInBlock(keys, i);
  }
}
