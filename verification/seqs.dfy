/**
  The list operations the handlers are built from: a database `findOne`
  (the first match), JavaScript's `Array.prototype.filter`, and a database
  `sort({field: -1})` (newest first).
 */
module Seqs {
  import opened Wrappers

  /** `findOne(query)` over a stored collection: the first element satisfying `p`, or nothing. */
  function FindFirst<T>(s: seq<T>, p: T -> bool): (r: Option<T>)
    ensures r.None? <==> forall k :: 0 <= k < |s| ==> !p(s[k])
    ensures r.Some? ==> r.value in s && p(r.value)
  {
    if |s| == 0 then None
    else if p(s[0]) then Some(s[0])
    else FindFirst(s[1..], p)
  }

  /** The element found is the earliest one satisfying `p`. */
  lemma {:induction false} FindFirstIsEarliest<T>(s: seq<T>, p: T -> bool)
    requires FindFirst(s, p).Some?
    ensures exists k :: 0 <= k < |s| && s[k] == FindFirst(s, p).value && forall m :: 0 <= m < k ==> !p(s[m])
  {
    if !p(s[0]) {
      FindFirstIsEarliest(s[1..], p);
      var k :| 0 <= k < |s[1..]| && s[1..][k] == FindFirst(s[1..], p).value && forall m :: 0 <= m < k ==> !p(s[1..][m]);
      assert s[k + 1] == s[1..][k];
    } else {
      assert s[0] == FindFirst(s, p).value;
    }
  }

  /** Appending a match to a list with none makes the appended element the one found. */
  lemma {:induction false} FindFirstAppended<T>(s: seq<T>, x: T, p: T -> bool)
    requires FindFirst(s, p).None? && p(x)
    ensures FindFirst(s + [x], p) == Some(x)
  {
    if |s| > 0 {
      assert (s + [x])[1..] == s[1..] + [x];
      FindFirstAppended(s[1..], x, p);
    }
  }

  /** `s.filter(p)`: the elements satisfying `p`, in their original order. */
  function Filter<T(!new)>(s: seq<T>, p: T -> bool): (r: seq<T>)
    ensures |r| <= |s|
    ensures forall i :: 0 <= i < |r| ==> p(r[i])
    ensures forall x :: x in r <==> x in s && p(x)
    ensures multiset(r) <= multiset(s)
  {
    if |s| == 0 then []
    else
      assert s == [s[0]] + s[1..];
      if p(s[0]) then [s[0]] + Filter(s[1..], p) else Filter(s[1..], p)
  }

  /** The filter keeps every copy of each element satisfying `p`, and no copy of any other. */
  lemma {:induction false} FilterMultiplicity<T(!new)>(s: seq<T>, p: T -> bool, x: T)
    ensures multiset(Filter(s, p))[x] == if p(x) then multiset(s)[x] else 0
  {
    if |s| > 0 {
      FilterMultiplicity(s[1..], p, x);
      assert s == [s[0]] + s[1..];
      assert multiset(s) == multiset{s[0]} + multiset(s[1..]);
    }
  }

  /** `r` is `s` with some elements left out: `idx` gives, in increasing
      order, the position in `s` of each element of `r`. */
  ghost predicate SubsequenceAt<T>(r: seq<T>, s: seq<T>, idx: seq<nat>) {
    && |idx| == |r|
    && (forall k :: 0 <= k < |idx| ==> idx[k] < |s| && r[k] == s[idx[k]])
    && (forall k, m :: 0 <= k < m < |idx| ==> idx[k] < idx[m])
  }

  /** The filter keeps its elements in their original order: `idx` gives the
      position in `s` of each element of the result. */
  lemma {:induction false} FilterKeepsOrder<T(!new)>(s: seq<T>, p: T -> bool) returns (idx: seq<nat>)
    ensures SubsequenceAt(Filter(s, p), s, idx)
  {
    if |s| == 0 {
      idx := [];
    } else {
      var rest := Filter(s[1..], p);
      var tail := FilterKeepsOrder(s[1..], p);
      var shifted := ShiftAfterHead(rest, s, tail);
      if p(s[0]) {
        assert Filter(s, p) == [s[0]] + rest;
        idx := PrependHead(rest, s, shifted);
      } else {
        assert Filter(s, p) == rest;
        idx := shifted;
      }
    }
  }

  /** Putting the head of `s` in front of a subsequence that lies past the head. */
  lemma PrependHead<T>(r: seq<T>, s: seq<T>, idx: seq<nat>) returns (full: seq<nat>)
    requires |s| > 0 && SubsequenceAt(r, s, idx)
    requires forall k :: 0 <= k < |idx| ==> idx[k] > 0
    ensures SubsequenceAt([s[0]] + r, s, full)
  {
    full := [0] + idx;
    forall k | 0 <= k < |full| ensures full[k] < |s| && ([s[0]] + r)[k] == s[full[k]] {
      if k > 0 {
        assert full[k] == idx[k - 1];
      }
    }
  }

  /** Positions in `s[1..]` moved to positions in `s`, all of them past the head. */
  lemma ShiftAfterHead<T>(r: seq<T>, s: seq<T>, idx: seq<nat>) returns (shifted: seq<nat>)
    requires |s| > 0 && SubsequenceAt(r, s[1..], idx)
    ensures SubsequenceAt(r, s, shifted)
    ensures forall k :: 0 <= k < |shifted| ==> shifted[k] > 0
  {
    shifted := seq(|idx|, k requires 0 <= k < |idx| => idx[k] + 1);
    forall k | 0 <= k < |shifted| ensures shifted[k] < |s| && r[k] == s[shifted[k]] {
      assert s[1..][idx[k]] == s[idx[k] + 1];
    }
  }

  lemma {:induction false} FilterConcat<T(!new)>(a: seq<T>, b: seq<T>, p: T -> bool)
    ensures Filter(a + b, p) == Filter(a, p) + Filter(b, p)
  {
    if |a| > 0 {
      FilterConcat(a[1..], b, p);
      assert (a + b)[1..] == a[1..] + b;
    } else {
      assert a + b == b;
    }
  }

  /** Taking out the element at `k` removes one copy of it from the multiset. */
  lemma RemoveAtMultiset<T>(t: seq<T>, k: nat)
    requires k < |t|
    ensures multiset(t[..k] + t[k + 1..]) == multiset(t) - multiset{t[k]}
  {
    assert t == t[..k] + [t[k]] + t[k + 1..];
  }

  /** Taking out the element at `k` lowers a filter count by one exactly when it satisfies `p`. */
  lemma FilterRemoveAt<T(!new)>(t: seq<T>, k: nat, p: T -> bool)
    requires k < |t|
    ensures |Filter(t, p)| == |Filter(t[..k] + t[k + 1..], p)| + (if p(t[k]) then 1 else 0)
  {
    assert t == (t[..k] + [t[k]]) + t[k + 1..];
    FilterConcat(t[..k] + [t[k]], t[k + 1..], p);
    FilterConcat(t[..k], [t[k]], p);
    FilterConcat(t[..k], t[k + 1..], p);
  }

  /** A filter count depends only on the multiset of elements, not on their order. */
  lemma {:induction false} FilterCountPermutation<T(!new)>(s: seq<T>, t: seq<T>, p: T -> bool)
    requires multiset(s) == multiset(t)
    ensures |Filter(s, p)| == |Filter(t, p)|
    decreases |s|
  {
    if |s| == 0 {
      assert t == [];
    } else {
      var x := s[0];
      assert x in multiset(t);
      var k :| 0 <= k < |t| && t[k] == x;
      RemoveAtMultiset(t, k);
      RemoveAtMultiset(s, 0);
      assert s[..0] + s[1..] == s[1..];
      FilterCountPermutation(s[1..], t[..k] + t[k + 1..], p);
      FilterRemoveAt(t, k, p);
      FilterRemoveAt(s, 0, p);
    }
  }

  /** `key` never increases along `s`: newest first when `key` is a date. */
  predicate SortedDesc<T>(s: seq<T>, key: T -> int) {
    forall i, j :: 0 <= i < j < |s| ==> key(s[i]) >= key(s[j])
  }

  /** Places `x` before the first element whose key does not exceed its own. */
  function InsertDesc<T>(x: T, s: seq<T>, key: T -> int): (r: seq<T>)
    requires SortedDesc(s, key)
    ensures SortedDesc(r, key)
    ensures multiset(r) == multiset(s) + multiset{x}
    ensures |r| == |s| + 1
    ensures r[0] == x || (|s| > 0 && r[0] == s[0])
  {
    if |s| == 0 then [x]
    else if key(x) >= key(s[0]) then [x] + s
    else
      var rest := InsertDesc(x, s[1..], key);
      assert s == [s[0]] + s[1..];
      [s[0]] + rest
  }

  /** A stable insertion sort, newest (largest key) first. */
  function SortDesc<T>(s: seq<T>, key: T -> int): (r: seq<T>)
    ensures SortedDesc(r, key)
    ensures multiset(r) == multiset(s)
    ensures |r| == |s|
  {
    if |s| == 0 then []
    else
      assert s == [s[0]] + s[1..];
      InsertDesc(s[0], SortDesc(s[1..], key), key)
  }

  /** Sorting keeps exactly the elements it was given. */
  lemma SortKeepsMembers<T>(s: seq<T>, key: T -> int, x: T)
    ensures x in SortDesc(s, key) <==> x in s
  {
    var r := SortDesc(s, key);
    assert x in r <==> x in multiset(r);
    assert x in s <==> x in multiset(s);
  }
}
