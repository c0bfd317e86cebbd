/**
 * The ascending numeric sort applied to the four time values after every
 * accepted edit (script.js:702), and the fact that justifies modelling it
 * with any correct sort: an ascending permutation is unique.
 */
module TimeOrder {

  predicate Ascending(s: seq<real>)
  {
    forall i, j :: 0 <= i < j < |s| ==> s[i] <= s[j]
  }

  /** Inserts `x` into an ascending sequence, keeping it ascending. */
  function Insert(x: real, s: seq<real>): (r: seq<real>)
    requires Ascending(s)
    ensures Ascending(r)
    ensures multiset(r) == multiset(s) + multiset{x}
    ensures |r| == |s| + 1
  {
    if |s| == 0 then [x]
    else if x <= s[0] then
      assert forall k :: 0 <= k < |s| ==> s[0] <= s[k];
      ConsAscending(x, s);
      [x] + s
    else
      var rest := Insert(x, s[1..]);
      assert s == [s[0]] + s[1..];
      assert forall k :: 0 <= k < |s[1..]| ==> s[0] <= s[1..][k];
      LowerBoundKept(s[1..], x, rest, s[0]);
      ConsAscending(s[0], rest);
      [s[0]] + rest
  }

  /** A bound below every element of t and below x stays below every element of t with x added. */
  lemma LowerBoundKept(t: seq<real>, x: real, r: seq<real>, lo: real)
    requires multiset(r) == multiset(t) + multiset{x}
    requires forall k :: 0 <= k < |t| ==> lo <= t[k]
    requires lo <= x
    ensures forall k :: 0 <= k < |r| ==> lo <= r[k]
  {
    forall k | 0 <= k < |r|
      ensures lo <= r[k]
    {
      assert r[k] in multiset(r);
      if r[k] != x {
        assert r[k] in multiset(t);
      }
    }
  }

  /** A head no larger than any element of an ascending tail keeps it ascending. */
  lemma ConsAscending(h: real, t: seq<real>)
    requires Ascending(t)
    requires forall k :: 0 <= k < |t| ==> h <= t[k]
    ensures Ascending([h] + t)
  {
    var r := [h] + t;
    forall i, j | 0 <= i < j < |r|
      ensures r[i] <= r[j]
    {
      if i > 0 {
        assert r[i] == t[i-1] && r[j] == t[j-1];
      } else {
        assert r[j] == t[j-1];
      }
    }
  }

  /** A last element no smaller than any element of an ascending prefix keeps it ascending. */
  lemma SnocAscending(t: seq<real>, x: real)
    requires Ascending(t)
    requires forall k :: 0 <= k < |t| ==> t[k] <= x
    ensures Ascending(t + [x])
  {
    var r := t + [x];
    forall i, j | 0 <= i < j < |r|
      ensures r[i] <= r[j]
    {
      assert r[i] == t[i];
      if j < |t| {
        assert r[j] == t[j];
      }
    }
  }

  /** An ascending rearrangement of `s`, as `Array.prototype.sort((a, b) => a - b)`. */
  function SortAscending(s: seq<real>): (r: seq<real>)
    ensures Ascending(r)
    ensures multiset(r) == multiset(s)
    ensures |r| == |s|
  {
    if |s| == 0 then []
    else
      assert s == [s[0]] + s[1..];
      Insert(s[0], SortAscending(s[1..]))
  }

  /** Two ascending sequences with the same elements are equal. */
  lemma {:induction false} AscendingPermutationUnique(a: seq<real>, b: seq<real>)
    requires Ascending(a) && Ascending(b)
    requires multiset(a) == multiset(b)
    ensures a == b
  {
    assert |a| == |multiset(a)| == |multiset(b)| == |b|;
    if |a| > 0 {
      SameLeast(a, b);
      DropHead(a);
      DropHead(b);
      AscendingPermutationUnique(a[1..], b[1..]);
      assert a == [a[0]] + a[1..];
      assert b == [b[0]] + b[1..];
    }
  }

  /** Ascending sequences with the same elements start with the same value. */
  lemma SameLeast(a: seq<real>, b: seq<real>)
    requires Ascending(a) && Ascending(b)
    requires multiset(a) == multiset(b) && |a| > 0
    ensures |b| > 0 && a[0] == b[0]
  {
    assert a[0] in multiset(b);
    assert b[0] in multiset(a);
    var i :| 0 <= i < |b| && b[i] == a[0];
    var j :| 0 <= j < |a| && a[j] == b[0];
    assert b[0] <= b[i] && a[0] <= a[j];
  }

  /** Dropping the head of an ascending sequence removes one copy of it. */
  lemma DropHead(a: seq<real>)
    requires Ascending(a) && |a| > 0
    ensures Ascending(a[1..])
    ensures multiset(a[1..]) == multiset(a) - multiset{a[0]}
  {
    assert a == [a[0]] + a[1..];
  }

  /** Sorting is the identity on an already ascending sequence. */
  lemma SortKeepsAscending(s: seq<real>)
    requires Ascending(s)
    ensures SortAscending(s) == s
  {
    AscendingPermutationUnique(SortAscending(s), s);
  }

  /** Every element of a sorted sequence is an element of the input. */
  lemma SortedElementsComeFromInput(s: seq<real>, k: int)
    requires 0 <= k < |s|
    ensures SortAscending(s)[k] in s
  {
    var r := SortAscending(s);
    assert r[k] in multiset(r);
  }

  /** The sort of s is any ascending rearrangement of s. */
  lemma SortIsAscendingPermutation(s: seq<real>, t: seq<real>)
    requires Ascending(t) && multiset(s) == multiset(t)
    ensures SortAscending(s) == t
  {
    AscendingPermutationUnique(SortAscending(s), t);
  }

  /** Raising the first value past the last moves it to the end and shifts the rest down. */
  lemma SortAfterRaisingFirst(t: seq<real>, v: real)
    requires Ascending(t) && |t| > 0 && t[|t|-1] <= v
    ensures SortAscending(t[0 := v]) == t[1..] + [v]
  {
    var rest := t[1..];
    assert t[0 := v] == [v] + rest;
    assert forall k :: 0 <= k < |rest| ==> rest[k] == t[k + 1] <= t[|t|-1];
    SnocAscending(rest, v);
    assert multiset(t[0 := v]) == multiset(rest + [v]);
    SortIsAscendingPermutation(t[0 := v], rest + [v]);
  }

  /** Four values in order form an ascending sequence. */
  lemma AscendingFour(a: real, b: real, c: real, d: real)
    requires a <= b <= c <= d
    ensures Ascending([a, b, c, d])
  {
  }
}
