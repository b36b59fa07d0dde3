/** Sequence helpers: the row filter that `DataFrame.dropna` and boolean
    indexing perform. */
module Seqs {

  /** Keeps, in order, the elements that satisfy `p`. */
  function Filter<T>(p: T -> bool, s: seq<T>): (r: seq<T>)
    ensures |r| <= |s|
    ensures forall i :: 0 <= i < |r| ==> r[i] in s && p(r[i])
    ensures forall i :: 0 <= i < |s| && p(s[i]) ==> s[i] in r
    ensures multiset(r) <= multiset(s)
    decreases |s|
  {
    if |s| == 0 then []
    else
      assert s == [s[0]] + s[1..];
      (if p(s[0]) then [s[0]] else []) + Filter(p, s[1..])
  }

  /** When exactly the elements from position `m` on pass the test, the
      filter is the suffix from `m`. */
  lemma {:induction false} FilterKeepsSuffix<T>(p: T -> bool, s: seq<T>, m: nat)
    requires m <= |s|
    requires forall i :: 0 <= i < |s| ==> (p(s[i]) <==> m <= i)
    ensures Filter(p, s) == s[m..]
    decreases |s|
  {
    if |s| == 0 {
    } else if m == 0 {
      assert p(s[0]);
      FilterKeepsSuffix(p, s[1..], 0);
      assert [s[0]] + s[1..] == s;
    } else {
      assert !p(s[0]);
      assert forall i :: 0 <= i < |s[1..]| ==> (p(s[1..][i]) <==> m - 1 <= i) by {
        forall i | 0 <= i < |s[1..]| ensures (p(s[1..][i]) <==> m - 1 <= i) {
          assert s[1..][i] == s[i + 1];
        }
      }
      FilterKeepsSuffix(p, s[1..], m - 1);
      assert s[1..][m - 1..] == s[m..];
    }
  }

  /** Filtering a concatenation filters each part, in order: the filter
      keeps the relative order and the multiplicity of what it keeps. */
  lemma {:induction false} FilterAppend<T>(p: T -> bool, a: seq<T>, b: seq<T>)
    ensures Filter(p, a + b) == Filter(p, a) + Filter(p, b)
    decreases |a|
  {
    if |a| > 0 {
      assert (a + b)[0] == a[0] && (a + b)[1..] == a[1..] + b;
      FilterAppend(p, a[1..], b);
    } else {
      assert a + b == b;
    }
  }

  /** `q` is the last position of `s` whose element passes `p`. */
  predicate LastPassing<T>(p: T -> bool, s: seq<T>, q: int)
  {
    0 <= q < |s| && p(s[q]) && forall i :: q < i < |s| ==> !p(s[i])
  }

  /** `r` is empty or ends with the element at the last position of `s`
      that passes `p`. */
  ghost predicate EndsAtLastPassing<T>(p: T -> bool, s: seq<T>, r: seq<T>)
  {
    |r| > 0 ==> exists q :: LastPassing(p, s, q) && r[|r| - 1] == s[q]
  }

  /** The last element kept is the element at the last position that
      passes the test. */
  lemma {:induction false} FilterLast<T>(p: T -> bool, s: seq<T>)
    ensures EndsAtLastPassing(p, s, Filter(p, s))
    decreases |s|
  {
    if |s| > 0 {
      var n := |s| - 1;
      var init := s[..n];
      assert s == init + [s[n]];
      FilterAppend(p, init, [s[n]]);
      assert Filter(p, [s[n]]) == if p(s[n]) then [s[n]] else [];
      if p(s[n]) {
        assert LastPassing(p, s, n);
      } else if |Filter(p, init)| > 0 {
        FilterLast(p, init);
        var q :| LastPassing(p, init, q) && Filter(p, init)[|Filter(p, init)| - 1] == init[q];
        LastPassingBeforeTail(p, s, q);
      }
    }
  }

  lemma LastPassingBeforeTail<T>(p: T -> bool, s: seq<T>, q: int)
    requires |s| > 0 && !p(s[|s| - 1]) && LastPassing(p, s[..|s| - 1], q)
    ensures LastPassing(p, s, q)
  {
    forall i | q < i < |s| - 1 ensures !p(s[i]) {
      assert s[i] == s[..|s| - 1][i];
    }
  }

  /** Applies `g` to every element. */
  function MapSeq<T, U>(g: T -> U, s: seq<T>): (r: seq<U>)
    ensures |r| == |s|
    ensures forall i :: 0 <= i < |s| ==> r[i] == g(s[i])
  {
    seq(|s|, i requires 0 <= i < |s| => g(s[i]))
  }

  /** Filtering commutes with a map that does not change the verdict of the
      filter. */
  lemma {:induction false} FilterMapCommute<T>(p: T -> bool, g: T -> T, s: seq<T>)
    requires forall i :: 0 <= i < |s| ==> p(g(s[i])) == p(s[i])
    ensures Filter(p, MapSeq(g, s)) == MapSeq(g, Filter(p, s))
    decreases |s|
  {
    if |s| > 0 {
      var m := MapSeq(g, s);
      assert m[0] == g(s[0]) && m[1..] == MapSeq(g, s[1..]);
      FilterMapCommute(p, g, s[1..]);
      var rest := MapSeq(g, Filter(p, s[1..]));
      assert Filter(p, m) == (if p(s[0]) then [g(s[0])] else []) + rest;
      if p(s[0]) {
        MapSeqCons(g, s[0], Filter(p, s[1..]));
      }
    }
  }

  lemma MapSeqCons<T, U>(g: T -> U, x: T, s: seq<T>)
    ensures MapSeq(g, [x] + s) == [g(x)] + MapSeq(g, s)
  {
  }
}
