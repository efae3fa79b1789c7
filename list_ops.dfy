/**
 * The two array operations of the filtering effect: `Array.prototype.filter`
 * and `Array.prototype.find`, as functions on sequences, with what they
 * promise about order, membership and multiplicity.
 */
module ListOps {
  import opened Wrappers

  /** `s.filter(keep)`: the elements of `s` for which `keep` holds, visited from the left. */
  function Filter<T(!new)>(s: seq<T>, keep: T -> bool): (r: seq<T>)
    ensures |r| <= |s|
    ensures forall x :: x in r <==> x in s && keep(x)
  {
    if s == [] then []
    else if keep(s[0]) then [s[0]] + Filter(s[1..], keep)
    else Filter(s[1..], keep)
  }

  /** `idx` lists, in increasing order, the positions of `b` that make up `a`. */
  ghost predicate Embeds<T(!new)>(a: seq<T>, b: seq<T>, idx: seq<nat>)
  {
    && |idx| == |a|
    && (forall k :: 0 <= k < |idx| ==> idx[k] < |b| && a[k] == b[idx[k]])
    && (forall k, l :: 0 <= k < l < |idx| ==> idx[k] < idx[l])
  }

  /** `a` is obtained from `b` by deleting elements, keeping the rest in order. */
  ghost predicate IsSubsequence<T(!new)>(a: seq<T>, b: seq<T>)
  {
    exists idx :: Embeds(a, b, idx)
  }

  /** Every position of `idx` moved one to the right. */
  function Shift(idx: seq<nat>): (r: seq<nat>)
    ensures |r| == |idx|
    ensures forall k :: 0 <= k < |idx| ==> r[k] == idx[k] + 1
  {
    seq(|idx|, k requires 0 <= k < |idx| => idx[k] + 1)
  }

  /** An embedding into the tail of `b` is one into `b`; it extends to the head when `a` starts with it. */
  lemma ShiftEmbeds<T(!new)>(a: seq<T>, b: seq<T>, idx: seq<nat>)
    requires b != [] && Embeds(a, b[1..], idx)
    ensures Embeds(a, b, Shift(idx))
    ensures Embeds([b[0]] + a, b, [0] + Shift(idx))
  {
    var shifted := Shift(idx);
    assert forall k :: 0 <= k < |shifted| ==> a[k] == b[1..][idx[k]] == b[shifted[k]];
    var whole := [0] + shifted;
    forall k | 0 <= k < |whole| ensures whole[k] < |b| && ([b[0]] + a)[k] == b[whole[k]] {
      if k > 0 {
        assert whole[k] == shifted[k - 1];
      }
    }
  }

  /** Filtering keeps the kept elements in their original relative order. */
  lemma {:induction false} FilterEmbeds<T(!new)>(s: seq<T>, keep: T -> bool) returns (idx: seq<nat>)
    ensures Embeds(Filter(s, keep), s, idx)
  {
    if s == [] {
      idx := [];
    } else {
      var rest := FilterEmbeds(s[1..], keep);
      ShiftEmbeds(Filter(s[1..], keep), s, rest);
      if keep(s[0]) {
        idx := [0] + Shift(rest);
      } else {
        idx := Shift(rest);
      }
    }
  }

  lemma FilterIsSubsequence<T(!new)>(s: seq<T>, keep: T -> bool)
    ensures IsSubsequence(Filter(s, keep), s)
  {
    var idx := FilterEmbeds(s, keep);
  }

  /** Filtering a concatenation filters each part: no element moves across the seam. */
  lemma {:induction false} FilterAppend<T(!new)>(a: seq<T>, b: seq<T>, keep: T -> bool)
    ensures Filter(a + b, keep) == Filter(a, keep) + Filter(b, keep)
  {
    if a == [] {
      assert a + b == b;
    } else {
      assert (a + b)[1..] == a[1..] + b;
      FilterAppend(a[1..], b, keep);
    }
  }

  /** Each element is kept exactly as often as it occurs, or dropped altogether. */
  lemma {:induction false} FilterMultiplicity<T(!new)>(s: seq<T>, keep: T -> bool, x: T)
    ensures multiset(Filter(s, keep))[x] == if keep(x) then multiset(s)[x] else 0
  {
    if s != [] {
      FilterMultiplicity(s[1..], keep, x);
      assert s == [s[0]] + s[1..];
    }
  }

  /** Two filters in a row are one filter by the conjunction of their tests. */
  lemma {:induction false} FilterFusion<T(!new)>(s: seq<T>, first: T -> bool, second: T -> bool, both: T -> bool)
    requires forall x :: both(x) == (first(x) && second(x))
    ensures Filter(Filter(s, first), second) == Filter(s, both)
  {
    if s != [] {
      FilterFusion(s[1..], first, second, both);
    }
  }

  /** Filters by tests that agree on every element of `s` give the same result. */
  lemma {:induction false} FilterExtensional<T(!new)>(s: seq<T>, p: T -> bool, q: T -> bool)
    requires forall x :: x in s ==> p(x) == q(x)
    ensures Filter(s, p) == Filter(s, q)
  {
    if s != [] {
      FilterExtensional(s[1..], p, q);
    }
  }

  /**
   * A stage written `if (active) s = s.filter(test)` is one filter by
   * "not active, or passes the test".
   */
  lemma GuardedFilter<T(!new)>(s: seq<T>, active: bool, test: T -> bool, pass: T -> bool)
    requires forall x :: pass(x) == (!active || test(x))
    ensures (if active then Filter(s, test) else s) == Filter(s, pass)
  {
    if active {
      FilterExtensional(s, test, pass);
    } else {
      FilterKeepsAllIff(s, pass);
    }
  }

  /** A filter that rejects nothing in `s` returns `s` itself; one that rejects something returns less. */
  lemma {:induction false} FilterKeepsAllIff<T(!new)>(s: seq<T>, keep: T -> bool)
    ensures Filter(s, keep) == s <==> forall x :: x in s ==> keep(x)
  {
    if s != [] {
      FilterKeepsAllIff(s[1..], keep);
      if !keep(s[0]) {
        assert |Filter(s, keep)| < |s|;
      }
    }
  }

  /** A filter that keeps nothing of `s` returns the empty list. */
  lemma {:induction false} FilterRejectsAll<T(!new)>(s: seq<T>, keep: T -> bool)
    requires forall x :: x in s ==> !keep(x)
    ensures Filter(s, keep) == []
  {
    if s != [] {
      FilterRejectsAll(s[1..], keep);
    }
  }

  /** Position `k` holds the first element of `s` that satisfies `p`. */
  ghost predicate FirstSatisfying<T(!new)>(s: seq<T>, p: T -> bool, k: int)
  {
    0 <= k < |s| && p(s[k]) && forall m :: 0 <= m < k ==> !p(s[m])
  }

  /** `s.find(p)`: the first element satisfying `p`, or nothing when there is none. */
  function Find<T(!new)>(s: seq<T>, p: T -> bool): (r: Option<T>)
    ensures r.None? <==> forall x :: x in s ==> !p(x)
    ensures r.Some? ==> exists k :: FirstSatisfying(s, p, k) && s[k] == r.value
  {
    if s == [] then None
    else if p(s[0]) then (assert FirstSatisfying(s, p, 0); Some(s[0]))
    else
      var r := Find(s[1..], p);
      if r.Some? then
        assert exists k :: FirstSatisfying(s, p, k) && s[k] == r.value by {
          var k :| FirstSatisfying(s[1..], p, k) && s[1..][k] == r.value;
          assert FirstSatisfying(s, p, k + 1);
        }
        r
      else r
  }
}
