/**
 * `Array.prototype.filter`, `map` and `slice(0, n)` as used by the search
 * widget, with what each of them promises: filter keeps exactly the elements
 * that pass, in their original order.
 */
module Sequences {

  /** `s.filter(p)`: the elements of `s` that pass `p`, in the order of `s`. */
  function Filter<T>(s: seq<T>, p: T -> bool): (r: seq<T>)
    ensures |r| <= |s|
    ensures forall x :: x in r ==> x in s && p(x)
    ensures forall x :: x in s && p(x) ==> x in r
  {
    if s == [] then []
    else
      var last := s[|s| - 1];
      Filter(s[..|s| - 1], p) + (if p(last) then [last] else [])
  }

  /** The positions of `s` whose elements pass `p`, in increasing order. */
  ghost function KeptIndices<T>(s: seq<T>, p: T -> bool): seq<nat>
  {
    if s == [] then []
    else KeptIndices(s[..|s| - 1], p) + (if p(s[|s| - 1]) then [|s| - 1] else [])
  }

  /** `idx` lists, in strictly increasing order, exactly the positions of `s` that pass `p`. */
  ghost predicate SelectsExactly<T>(s: seq<T>, p: T -> bool, idx: seq<nat>) {
    (forall k :: 0 <= k < |idx| ==> idx[k] < |s|) &&
    (forall k, l :: 0 <= k < l < |idx| ==> idx[k] < idx[l]) &&
    (forall i :: 0 <= i < |s| ==> (p(s[i]) <==> i in idx))
  }

  /**
   * The filter result is the subsequence of `s` picked out by the passing
   * positions: order is kept, no passing element is dropped and no failing
   * one is kept, duplicates included.
   */
  lemma {:induction false} FilterSelectsExactly<T>(s: seq<T>, p: T -> bool)
    ensures SelectsExactly(s, p, KeptIndices(s, p))
    ensures |Filter(s, p)| == |KeptIndices(s, p)|
    ensures forall k :: 0 <= k < |Filter(s, p)| ==> Filter(s, p)[k] == s[KeptIndices(s, p)[k]]
  {
    if s != [] {
      var n := |s| - 1;
      var init, last := s[..n], s[n];
      FilterSelectsExactly(init, p);
      var idx, r := KeptIndices(init, p), Filter(init, p);
      var tailIdx := if p(last) then [n] else [];
      var ks := idx + tailIdx;
      assert KeptIndices(s, p) == ks;
      assert Filter(s, p) == r + (if p(last) then [last] else []);
      assert forall k :: 0 <= k < |ks| ==> ks[k] < |s| by {
        forall k | 0 <= k < |ks| ensures ks[k] < |s| {
          if k < |idx| { assert ks[k] == idx[k]; }
        }
      }
      forall k, l | 0 <= k < l < |ks| ensures ks[k] < ks[l] {
        if l < |idx| { assert ks[k] == idx[k] && ks[l] == idx[l]; }
        else { assert ks[k] == idx[k] < n; }
      }
      forall i | 0 <= i < |s| ensures p(s[i]) <==> i in ks {
        if i < n {
          assert s[i] == init[i];
          assert i in ks <==> i in idx;
        } else {
          assert n !in idx;
        }
      }
    }
  }

  /** Filtering works element by element: an element added at the end is kept exactly when it passes. */
  lemma {:induction false} FilterAppend<T>(s: seq<T>, x: T, p: T -> bool)
    ensures Filter(s + [x], p) == Filter(s, p) + (if p(x) then [x] else [])
  {
    assert (s + [x])[..|s|] == s;
  }

  /** Filtering with two tests that agree on every element gives the same result. */
  lemma {:induction false} FilterCongruent<T>(s: seq<T>, p: T -> bool, q: T -> bool)
    requires forall x :: x in s ==> p(x) == q(x)
    ensures Filter(s, p) == Filter(s, q)
  {
    if s != [] {
      FilterCongruent(s[..|s| - 1], p, q);
    }
  }

  /** Filtering a filtered sequence again with the same test changes nothing. */
  lemma {:induction false} FilterIdempotent<T>(s: seq<T>, p: T -> bool)
    ensures Filter(Filter(s, p), p) == Filter(s, p)
  {
    if s != [] {
      var init := s[..|s| - 1];
      FilterIdempotent(init, p);
      var r := Filter(init, p);
      var last := s[|s| - 1];
      if p(last) {
        assert Filter(s, p) == r + [last];
        assert (r + [last])[..|r|] == r;
      } else {
        assert Filter(s, p) == r;
      }
    }
  }

  /** `s.slice(0, n)`: the first `n` elements, or all of them when there are fewer. */
  function Take<T>(s: seq<T>, n: nat): (r: seq<T>)
    ensures |r| <= n
    ensures r <= s
    ensures |r| == if |s| < n then |s| else n
  {
    if |s| <= n then s else s[..n]
  }
}
