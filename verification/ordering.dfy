/** `sort_values(["server_id", "service_description", "Timestamp"])`: a
    stable sort on a three-part key in which a missing timestamp (NaT) sorts
    after every present one. */
module Ordering {
  import opened Wrappers
  import Seqs

  datatype SortKey = SortKey(serverId: int, service: int, stamp: Option<int>)

  /** Strict order on timestamps, NaT last and NaT tied with NaT. */
  predicate StampBefore(a: Option<int>, b: Option<int>)
  {
    a.Some? && (b.None? || a.value < b.value)
  }

  /** Strict lexicographic order on sort keys. */
  predicate KeyBefore(a: SortKey, b: SortKey)
  {
    || a.serverId < b.serverId
    || (a.serverId == b.serverId && a.service < b.service)
    || (a.serverId == b.serverId && a.service == b.service && StampBefore(a.stamp, b.stamp))
  }

  /** No element is followed by one with a strictly smaller key. */
  predicate SortedBy<T>(key: T -> SortKey, s: seq<T>)
  {
    forall i, j :: 0 <= i < j < |s| ==> !KeyBefore(key(s[j]), key(s[i]))
  }

  /** The elements of `s` whose key is `k`, in their order in `s`. A sort is
      stable when it keeps every such class as it was. */
  function KeyClass<T>(key: T -> SortKey, s: seq<T>, k: SortKey): seq<T>
    decreases |s|
  {
    if |s| == 0 then []
    else (if key(s[0]) == k then [s[0]] else []) + KeyClass(key, s[1..], k)
  }

  /** The test "has sort key `k`", as a predicate value. */
  function HasKey<T>(key: T -> SortKey, k: SortKey): T -> bool
  {
    x => key(x) == k
  }

  /** A key class is the row filter on that key: its members in table
      order, each as often as it occurs. */
  lemma {:induction false} KeyClassIsFilter<T>(key: T -> SortKey, s: seq<T>, k: SortKey)
    ensures KeyClass(key, s, k) == Seqs.Filter(HasKey(key, k), s)
    decreases |s|
  {
    if |s| > 0 {
      KeyClassIsFilter(key, s[1..], k);
    }
  }

  lemma KeyOrderTransitive(a: SortKey, b: SortKey, c: SortKey)
    requires !KeyBefore(b, a) && !KeyBefore(c, b)
    ensures !KeyBefore(c, a)
  {
  }

  /** Puts `x` in front of the first element whose key is not smaller, so
      that `x` precedes the elements of its own key already in `s`. */
  function Insert<T>(key: T -> SortKey, x: T, s: seq<T>): (r: seq<T>)
    requires SortedBy(key, s)
    ensures SortedBy(key, r)
    ensures multiset(r) == multiset{x} + multiset(s)
    ensures forall k :: KeyClass(key, r, k) == (if key(x) == k then [x] else []) + KeyClass(key, s, k)
    decreases |s|
  {
    if |s| == 0 || !KeyBefore(key(s[0]), key(x)) then
      InsertFront(key, x, s);
      [x] + s
    else
      var t := Insert(key, x, s[1..]);
      InsertBehind(key, x, s, t);
      [s[0]] + t
  }

  lemma InsertFront<T>(key: T -> SortKey, x: T, s: seq<T>)
    requires SortedBy(key, s)
    requires |s| == 0 || !KeyBefore(key(s[0]), key(x))
    ensures SortedBy(key, [x] + s)
    ensures forall k :: KeyClass(key, [x] + s, k) == (if key(x) == k then [x] else []) + KeyClass(key, s, k)
  {
    var r := [x] + s;
    forall i, j | 0 <= i < j < |r| ensures !KeyBefore(key(r[j]), key(r[i])) {
      if i == 0 {
        KeyOrderTransitive(key(x), key(s[0]), key(s[j - 1]));
      }
    }
    assert r[1..] == s;
  }

  lemma InsertBehind<T>(key: T -> SortKey, x: T, s: seq<T>, t: seq<T>)
    requires SortedBy(key, s) && |s| > 0 && KeyBefore(key(s[0]), key(x))
    requires SortedBy(key, t)
    requires multiset(t) == multiset{x} + multiset(s[1..])
    requires forall k :: KeyClass(key, t, k) == (if key(x) == k then [x] else []) + KeyClass(key, s[1..], k)
    ensures SortedBy(key, [s[0]] + t)
    ensures multiset([s[0]] + t) == multiset{x} + multiset(s)
    ensures forall k :: KeyClass(key, [s[0]] + t, k) == (if key(x) == k then [x] else []) + KeyClass(key, s, k)
  {
    InsertBehindLeads(key, x, s, t);
    ConsSorted(key, s[0], t);
    calc {
      multiset([s[0]] + t);
      multiset{s[0]} + multiset{x} + multiset(s[1..]);
      { assert s == [s[0]] + s[1..]; }
      multiset{x} + multiset(s);
    }
    forall k ensures KeyClass(key, [s[0]] + t, k) == (if key(x) == k then [x] else []) + KeyClass(key, s, k) {
      InsertBehindClass(key, x, s, t, k);
    }
  }

  /** One key class: `x` and the head of `s` have different keys, so at
      most one of them joins the class in front. */
  lemma InsertBehindClass<T>(key: T -> SortKey, x: T, s: seq<T>, t: seq<T>, k: SortKey)
    requires |s| > 0 && key(s[0]) != key(x)
    requires KeyClass(key, t, k) == (if key(x) == k then [x] else []) + KeyClass(key, s[1..], k)
    ensures KeyClass(key, [s[0]] + t, k) == (if key(x) == k then [x] else []) + KeyClass(key, s, k)
  {
    var rest := KeyClass(key, s[1..], k);
    var head: seq<T> := if key(s[0]) == k then [s[0]] else [];
    var mid: seq<T> := if key(x) == k then [x] else [];
    KeyClassCons(key, s[0], t, k);
    KeyClassCons(key, s[0], s[1..], k);
    assert [s[0]] + s[1..] == s;
    assert KeyClass(key, [s[0]] + t, k) == head + (mid + rest);
    assert KeyClass(key, s, k) == head + rest;
    if key(x) == k {
      assert head == [];
      assert head + (mid + rest) == mid + (head + rest);
    } else {
      assert mid == [];
      assert head + (mid + rest) == mid + (head + rest);
    }
  }

  lemma KeyClassCons<T>(key: T -> SortKey, y: T, u: seq<T>, k: SortKey)
    ensures KeyClass(key, [y] + u, k) == (if key(y) == k then [y] else []) + KeyClass(key, u, k)
  {
    assert ([y] + u)[0] == y && ([y] + u)[1..] == u;
  }

  /** The head of `s` still leads once `x` is inserted behind it. */
  lemma InsertBehindLeads<T>(key: T -> SortKey, x: T, s: seq<T>, t: seq<T>)
    requires SortedBy(key, s) && |s| > 0 && KeyBefore(key(s[0]), key(x))
    requires multiset(t) == multiset{x} + multiset(s[1..])
    ensures Leads(key, s[0], t)
  {
    forall j | 0 <= j < |t| ensures !KeyBefore(key(t[j]), key(s[0])) {
      var y := t[j];
      assert y in multiset(t);
      if y != x {
        assert y in multiset(s[1..]);
        var m :| 0 <= m < |s[1..]| && s[1..][m] == y;
        assert s[m + 1] == y;
      }
    }
  }

  /** Insertion sort from the back: the result is sorted, holds the same
      elements, and keeps the input order among elements of equal key. */
  function StableSort<T>(key: T -> SortKey, s: seq<T>): (r: seq<T>)
    ensures SortedBy(key, r)
    ensures multiset(r) == multiset(s)
    ensures forall k :: KeyClass(key, r, k) == KeyClass(key, s, k)
    decreases |s|
  {
    if |s| == 0 then []
    else
      assert s == [s[0]] + s[1..];
      Insert(key, s[0], StableSort(key, s[1..]))
  }

  /** Sorting an already sorted table changes nothing. */
  lemma {:induction false} SortSortedIsIdentity<T>(key: T -> SortKey, s: seq<T>)
    requires SortedBy(key, s)
    ensures StableSort(key, s) == s
    decreases |s|
  {
    if |s| > 0 {
      assert SortedBy(key, s[1..]);
      SortSortedIsIdentity(key, s[1..]);
      assert s == [s[0]] + s[1..];
    }
  }

  /** No element of `t` has a key strictly smaller than that of `x`. */
  predicate Leads<T>(key: T -> SortKey, x: T, t: seq<T>)
  {
    forall i :: 0 <= i < |t| ==> !KeyBefore(key(t[i]), key(x))
  }

  lemma ConsSorted<T>(key: T -> SortKey, x: T, t: seq<T>)
    requires SortedBy(key, t) && Leads(key, x, t)
    ensures SortedBy(key, [x] + t)
  {
    var r := [x] + t;
    forall i, j | 0 <= i < j < |r| ensures !KeyBefore(key(r[j]), key(r[i])) {
      assert r[j] == t[j - 1];
      if i > 0 {
        assert r[i] == t[i - 1];
      }
    }
  }

  lemma FilterKeepsLead<T>(key: T -> SortKey, p: T -> bool, x: T, s: seq<T>)
    requires Leads(key, x, s)
    ensures Leads(key, x, Seqs.Filter(p, s))
  {
    var r := Seqs.Filter(p, s);
    forall i | 0 <= i < |r| ensures !KeyBefore(key(r[i]), key(x)) {
      assert r[i] in s;
      var m :| 0 <= m < |s| && s[m] == r[i];
    }
  }

  /** A subsequence taken by a filter of a sorted table is sorted. */
  lemma {:induction false} FilterKeepsSorted<T>(key: T -> SortKey, p: T -> bool, s: seq<T>)
    requires SortedBy(key, s)
    ensures SortedBy(key, Seqs.Filter(p, s))
    decreases |s|
  {
    if |s| > 0 {
      assert SortedBy(key, s[1..]);
      FilterKeepsSorted(key, p, s[1..]);
      if p(s[0]) {
        assert Leads(key, s[0], s[1..]) by {
          forall i | 0 <= i < |s[1..]| ensures !KeyBefore(key(s[1..][i]), key(s[0])) {
            assert s[1..][i] == s[i + 1];
          }
        }
        FilterKeepsLead(key, p, s[0], s[1..]);
        ConsSorted(key, s[0], Seqs.Filter(p, s[1..]));
      }
    }
  }

  /** A map that keeps every key keeps a table sorted. */
  lemma MapKeepsSorted<T>(key: T -> SortKey, g: T -> T, s: seq<T>)
    requires SortedBy(key, s)
    requires forall i :: 0 <= i < |s| ==> key(g(s[i])) == key(s[i])
    ensures SortedBy(key, Seqs.MapSeq(g, s))
  {
  }

  /** Sorting commutes with a map that keeps every key: the map does not
      change the order in which the rows come out. */
  lemma {:induction false} InsertMapCommute<T>(key: T -> SortKey, g: T -> T, x: T, s: seq<T>)
    requires SortedBy(key, s) && SortedBy(key, Seqs.MapSeq(g, s))
    requires key(g(x)) == key(x)
    requires forall i :: 0 <= i < |s| ==> key(g(s[i])) == key(s[i])
    ensures Insert(key, g(x), Seqs.MapSeq(g, s)) == Seqs.MapSeq(g, Insert(key, x, s))
    decreases |s|, 1
  {
    if |s| == 0 {
      assert Seqs.MapSeq(g, [x]) == [g(x)];
    } else if KeyBefore(key(s[0]), key(x)) {
      InsertMapCommuteBehind(key, g, x, s);
    } else {
      assert Seqs.MapSeq(g, [x] + s) == [g(x)] + Seqs.MapSeq(g, s);
    }
  }

  lemma {:induction false} InsertMapCommuteBehind<T>(key: T -> SortKey, g: T -> T, x: T, s: seq<T>)
    requires SortedBy(key, s) && SortedBy(key, Seqs.MapSeq(g, s))
    requires key(g(x)) == key(x)
    requires forall i :: 0 <= i < |s| ==> key(g(s[i])) == key(s[i])
    requires |s| > 0 && KeyBefore(key(s[0]), key(x))
    ensures Insert(key, g(x), Seqs.MapSeq(g, s)) == Seqs.MapSeq(g, Insert(key, x, s))
    decreases |s|, 0
  {
    var gs := Seqs.MapSeq(g, s);
    assert gs[1..] == Seqs.MapSeq(g, s[1..]);
    InsertMapCommute(key, g, x, s[1..]);
    var t := Insert(key, x, s[1..]);
    assert Seqs.MapSeq(g, [s[0]] + t) == [g(s[0])] + Seqs.MapSeq(g, t);
  }

  lemma {:induction false} SortMapCommute<T>(key: T -> SortKey, g: T -> T, s: seq<T>)
    requires forall i :: 0 <= i < |s| ==> key(g(s[i])) == key(s[i])
    ensures StableSort(key, Seqs.MapSeq(g, s)) == Seqs.MapSeq(g, StableSort(key, s))
    decreases |s|
  {
    if |s| > 0 {
      var gs := Seqs.MapSeq(g, s);
      assert gs[1..] == Seqs.MapSeq(g, s[1..]);
      SortMapCommute(key, g, s[1..]);
      var t := StableSort(key, s[1..]);
      forall i | 0 <= i < |t| ensures key(g(t[i])) == key(t[i]) {
        assert t[i] in multiset(s[1..]);
        var m :| 0 <= m < |s[1..]| && s[1..][m] == t[i];
        assert s[m + 1] == t[i];
      }
      MapKeepsSorted(key, g, t);
      InsertMapCommute(key, g, s[0], t);
    }
  }
}
