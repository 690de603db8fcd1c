/** Facts about `Array.prototype.filter` and counting over sequences.  Both
    the projection emitted to the host and the typeahead's option list are
    filter comprehensions, so their common properties are proved once here. */
module Seqs {

  /** `s.filter(p)`: the elements of `s` satisfying `p`, in their original order. */
  function FilterSeq<T>(s: seq<T>, p: T -> bool): (r: seq<T>)
    ensures |r| <= |s|
    ensures forall i :: 0 <= i < |r| ==> r[i] in s && p(r[i])
    ensures forall i :: 0 <= i < |s| && p(s[i]) ==> s[i] in r
  {
    if |s| == 0 then []
    else if p(s[0]) then [s[0]] + FilterSeq(s[1..], p)
    else FilterSeq(s[1..], p)
  }

  /** The number of elements of `s` satisfying `p`. */
  function Count<T>(s: seq<T>, p: T -> bool): (n: nat)
    ensures n <= |s|
  {
    if |s| == 0 then 0 else (if p(s[0]) then 1 else 0) + Count(s[1..], p)
  }

  /** `r` can be obtained from `s` by deleting elements; order is kept. */
  ghost predicate IsSubsequence<T>(r: seq<T>, s: seq<T>)
    decreases |s|
  {
    if |r| == 0 then true
    else if |s| == 0 then false
    else (r[0] == s[0] && IsSubsequence(r[1..], s[1..])) || IsSubsequence(r, s[1..])
  }

  lemma {:induction false} FilterSeqLength<T>(s: seq<T>, p: T -> bool)
    ensures |FilterSeq(s, p)| == Count(s, p)
  {
    if |s| > 0 {
      FilterSeqLength(s[1..], p);
    }
  }

  lemma {:induction false} FilterSeqIsSubsequence<T>(s: seq<T>, p: T -> bool)
    ensures IsSubsequence(FilterSeq(s, p), s)
  {
    if |s| > 0 {
      FilterSeqIsSubsequence(s[1..], p);
      var rest := FilterSeq(s[1..], p);
      if p(s[0]) {
        assert ([s[0]] + rest)[1..] == rest;
      } else {
        SubsequenceOfTail(rest, s);
      }
    }
  }

  /** Every sequence is a subsequence of itself. */
  lemma {:induction false} SubsequenceRefl<T>(s: seq<T>)
    ensures IsSubsequence(s, s)
  {
    if |s| > 0 {
      SubsequenceRefl(s[1..]);
    }
  }

  /** The first element kept by `FilterSeq(s, p)` is the first `p`-element of
      `s`; `k` is its index. */
  lemma {:induction false} FilterSeqHead<T>(s: seq<T>, p: T -> bool) returns (k: nat)
    requires |FilterSeq(s, p)| > 0
    ensures k < |s| && FilterSeq(s, p)[0] == s[k] && p(s[k])
    ensures forall j :: 0 <= j < k ==> !p(s[j])
  {
    if p(s[0]) {
      k := 0;
    } else {
      var k' := FilterSeqHead(s[1..], p);
      k := k' + 1;
      assert forall j :: 1 <= j < k ==> s[j] == s[1..][j - 1];
    }
  }

  /** A subsequence of the tail is a subsequence of the whole. */
  lemma SubsequenceOfTail<T>(r: seq<T>, s: seq<T>)
    requires |s| > 0 && IsSubsequence(r, s[1..])
    ensures IsSubsequence(r, s)
  {
  }

  /** A subsequence made only of `p`-elements has at most `Count(s, p)` elements. */
  lemma {:induction false} SubsequenceCountBound<T>(r: seq<T>, s: seq<T>, p: T -> bool)
    requires IsSubsequence(r, s)
    requires forall i :: 0 <= i < |r| ==> p(r[i])
    ensures |r| <= Count(s, p)
    decreases |s|
  {
    if |r| > 0 {
      if r[0] == s[0] && IsSubsequence(r[1..], s[1..]) {
        SubsequenceCountBound(r[1..], s[1..], p);
      } else {
        SubsequenceCountBound(r, s[1..], p);
      }
    }
  }

  /** `FilterSeq(s, p)` is characterised independently of its definition: it is
      THE subsequence of `s` that holds only `p`-elements and drops none of them. */
  lemma {:induction false} FilterSeqUnique<T>(r: seq<T>, s: seq<T>, p: T -> bool)
    requires IsSubsequence(r, s)
    requires forall i :: 0 <= i < |r| ==> p(r[i])
    requires |r| == Count(s, p)
    ensures r == FilterSeq(s, p)
    decreases |s|
  {
    if |s| > 0 {
      if |r| == 0 {
        FilterSeqLength(s, p);
      } else if p(s[0]) {
        if !(r[0] == s[0] && IsSubsequence(r[1..], s[1..])) {
          SubsequenceCountBound(r, s[1..], p);
          assert false;
        }
        FilterSeqUnique(r[1..], s[1..], p);
        assert r == [r[0]] + r[1..];
      } else {
        assert r[0] != s[0];
        FilterSeqUnique(r, s[1..], p);
      }
    }
  }

  /** Filtering twice by the same predicate is filtering once. */
  lemma {:induction false} FilterSeqIdempotent<T>(s: seq<T>, p: T -> bool)
    ensures FilterSeq(FilterSeq(s, p), p) == FilterSeq(s, p)
  {
    if |s| > 0 {
      FilterSeqIdempotent(s[1..], p);
      if p(s[0]) {
        var r := [s[0]] + FilterSeq(s[1..], p);
        assert r[0] == s[0] && r[1..] == FilterSeq(s[1..], p);
      }
    }
  }

  /** Predicates that agree on the elements of `s` filter it alike. */
  lemma {:induction false} FilterSeqCongruent<T>(s: seq<T>, p: T -> bool, q: T -> bool)
    requires forall i :: 0 <= i < |s| ==> p(s[i]) == q(s[i])
    ensures FilterSeq(s, p) == FilterSeq(s, q)
  {
    if |s| > 0 {
      FilterSeqCongruent(s[1..], p, q);
    }
  }

  lemma {:induction false} CountAppend<T>(s: seq<T>, t: seq<T>, p: T -> bool)
    ensures Count(s + t, p) == Count(s, p) + Count(t, p)
  {
    if |s| > 0 {
      CountAppend(s[1..], t, p);
      assert (s + t)[1..] == s[1..] + t;
    } else {
      assert s + t == t;
    }
  }

  lemma {:induction false} CountPositive<T>(s: seq<T>, p: T -> bool)
    ensures Count(s, p) > 0 <==> exists i :: 0 <= i < |s| && p(s[i])
  {
    if |s| > 0 {
      CountPositive(s[1..], p);
      if exists i :: 0 <= i < |s[1..]| && p(s[1..][i]) {
        var i :| 0 <= i < |s[1..]| && p(s[1..][i]);
        assert p(s[i + 1]);
      }
      if exists i :: 0 <= i < |s| && p(s[i]) {
        var i :| 0 <= i < |s| && p(s[i]);
        if i > 0 {
          assert p(s[1..][i - 1]);
        }
      }
    }
  }

  /** Removing the element at `k` (`splice(k, 1)`) lowers the count by that element's share. */
  lemma {:induction false} CountRemove<T>(s: seq<T>, k: nat, p: T -> bool)
    requires k < |s|
    ensures Count(s[..k] + s[k+1..], p) + (if p(s[k]) then 1 else 0) == Count(s, p)
  {
    var pre, post := s[..k], s[k+1..];
    assert s == pre + ([s[k]] + post);
    CountAppend(pre, [s[k]] + post, p);
    CountAppend([s[k]], post, p);
    assert Count([s[k]], p) == (if p(s[k]) then 1 else 0) by {
      assert [s[k]][1..] == [];
    }
    CountAppend(pre, post, p);
  }

  /** Replacing the element at `k` trades its share of the count for that of `x`. */
  lemma {:induction false} CountUpdate<T>(s: seq<T>, k: nat, x: T, p: T -> bool)
    requires k < |s|
    ensures Count(s[k := x], p) + (if p(s[k]) then 1 else 0) == Count(s, p) + (if p(x) then 1 else 0)
  {
    var t := s[k := x];
    assert t[..k] == s[..k] && t[k+1..] == s[k+1..] && t[k] == x;
    CountRemove(s, k, p);
    CountRemove(t, k, p);
  }
}
