/**
 * Sequence facts shared by the text cleaner and the token filter: order-preserving
 * filtering (a list comprehension with a condition, or a regular-expression
 * substitution that deletes one character class), subsequences, and Python's
 * substring test `p in s`.
 */
module Seqs {

  /** `a` can be obtained from `b` by deleting elements, keeping the order. */
  predicate IsSubsequence<T(==)>(a: seq<T>, b: seq<T>)
    decreases |b|
  {
    if a == [] then true
    else if b == [] then false
    else (a[0] == b[0] && IsSubsequence(a[1..], b[1..])) || IsSubsequence(a, b[1..])
  }

  /** `[x for x in s if keep(x)]`. */
  function Filter<T>(keep: T -> bool, s: seq<T>): (r: seq<T>)
    ensures |r| <= |s|
    ensures forall i :: 0 <= i < |r| ==> keep(r[i])
    decreases |s|
  {
    if s == [] then []
    else if keep(s[0]) then [s[0]] + Filter(keep, s[1..])
    else Filter(keep, s[1..])
  }

  /** The filtered sequence keeps the order of the original: it is a subsequence. */
  lemma {:induction false} FilterSubsequence<T>(keep: T -> bool, s: seq<T>)
    ensures IsSubsequence(Filter(keep, s), s)
    decreases |s|
  {
    if s != [] {
      var rest := Filter(keep, s[1..]);
      FilterSubsequence(keep, s[1..]);
      if keep(s[0]) {
        assert ([s[0]] + rest)[1..] == rest;
      } else if rest != [] {
        assert keep(rest[0]);
      }
    }
  }

  /** Each kept value occurs as often as in the original; each dropped value never. */
  lemma {:induction false} FilterCounts<T(!new)>(keep: T -> bool, s: seq<T>)
    ensures forall x :: multiset(Filter(keep, s))[x] == if keep(x) then multiset(s)[x] else 0
    decreases |s|
  {
    if s != [] {
      FilterCounts(keep, s[1..]);
      assert s == [s[0]] + s[1..];
    }
  }

  /** A sequence all of whose elements are kept passes through unchanged. */
  lemma {:induction false} FilterAllKept<T>(keep: T -> bool, s: seq<T>)
    requires forall i :: 0 <= i < |s| ==> keep(s[i])
    ensures Filter(keep, s) == s
    decreases |s|
  {
    if s != [] {
      FilterAllKept(keep, s[1..]);
      assert s == [s[0]] + s[1..];
    }
  }

  /** Every element of a subsequence is an element of the sequence it came from. */
  lemma {:induction false} SubsequenceMembers<T>(a: seq<T>, b: seq<T>, i: nat)
    requires IsSubsequence(a, b)
    requires i < |a|
    ensures a[i] in b
    decreases |b|
  {
    if a[0] == b[0] && IsSubsequence(a[1..], b[1..]) {
      if i > 0 {
        SubsequenceMembers(a[1..], b[1..], i - 1);
      }
    } else {
      SubsequenceMembers(a, b[1..], i);
    }
  }

  /** `p` is a prefix of `s`. */
  predicate IsPrefix<T(==)>(p: seq<T>, s: seq<T>)
  {
    |p| <= |s| && s[..|p|] == p
  }

  /** Python's substring test `p in s`: `p` occurs somewhere in `s` (the empty `p` occurs in every `s`). */
  predicate Occurs<T(==)>(p: seq<T>, s: seq<T>)
    decreases |s|
  {
    IsPrefix(p, s) || (|s| > 0 && Occurs(p, s[1..]))
  }

  /** `p` sits at offset `k` of `s`. */
  ghost predicate OccursAtOffset<T>(p: seq<T>, s: seq<T>, k: int)
  {
    0 <= k <= |s| - |p| && s[k..k + |p|] == p
  }

  /** Occurs agrees with the positional definition: `p` sits at some offset of `s`. */
  lemma {:induction false} OccursAt<T>(p: seq<T>, s: seq<T>)
    ensures Occurs(p, s) <==> exists k :: OccursAtOffset(p, s, k)
    decreases |s|
  {
    if IsPrefix(p, s) {
      assert OccursAtOffset(p, s, 0);
    } else if |s| == 0 {
      assert forall k :: !OccursAtOffset(p, s, k);
    } else {
      OccursAt(p, s[1..]);
      if exists k :: OccursAtOffset(p, s[1..], k) {
        var k :| OccursAtOffset(p, s[1..], k);
        assert s[k + 1..k + 1 + |p|] == s[1..][k..k + |p|];
        assert OccursAtOffset(p, s, k + 1);
      }
      if exists k :: OccursAtOffset(p, s, k) {
        var k :| OccursAtOffset(p, s, k);
        assert k != 0;
        assert s[1..][k - 1..k - 1 + |p|] == s[k..k + |p|];
        assert OccursAtOffset(p, s[1..], k - 1);
      }
    }
  }

  /** Occurrence is transitive: a part of a part of `s` is a part of `s`. */
  lemma OccursTransitive<T>(a: seq<T>, b: seq<T>, c: seq<T>)
    requires Occurs(a, b) && Occurs(b, c)
    ensures Occurs(a, c)
  {
    OccursAt(a, b);
    OccursAt(b, c);
    OccursAt(a, c);
    var i :| OccursAtOffset(a, b, i);
    var j :| OccursAtOffset(b, c, j);
    forall k | 0 <= k < |a|
      ensures c[j + i + k] == a[k]
    {
      assert a[k] == b[i + k] == c[j + i + k];
    }
    assert c[j + i..j + i + |a|] == a;
    assert OccursAtOffset(a, c, j + i);
  }
}
