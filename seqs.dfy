/** Generic facts about sequences: order-preserving filtering, subsequences, and the
    concatenation and slicing steps the other modules' proofs rely on. */
module Seqs {
  /** The last element of `a + [x]` is `x`, and the others are those of `a`. */
  lemma SnocElements<T>(a: seq<T>, x: T)
    ensures |a + [x]| == |a| + 1 && (a + [x])[|a|] == x && (a + [x])[..|a|] == a
    ensures forall i :: 0 <= i < |a| ==> (a + [x])[i] == a[i]
  {
  }

  /** Sequences that agree on the first `|b|` positions have the same prefixes up to there. */
  lemma PrefixOfPrefix<T>(a: seq<T>, b: seq<T>, n: nat)
    requires n <= |b| <= |a| && forall i :: 0 <= i < |b| ==> a[i] == b[i]
    ensures a[..n] == b[..n]
  {
  }

  /** One more element taken from `s`. */
  lemma TakeSnoc<T>(s: seq<T>, i: nat)
    requires i < |s|
    ensures s[..i + 1] == s[..i] + [s[i]]
  {
  }

  /** Splitting off the last element of a concatenation. */
  lemma SnocSplit<T>(a: seq<T>, b: seq<T>)
    requires b != []
    ensures a + b == (a + b[..|b| - 1]) + [b[|b| - 1]]
  {
    assert b == b[..|b| - 1] + [b[|b| - 1]];
  }

  /** The prefix of full length. */
  lemma TakeAll<T>(s: seq<T>)
    ensures s[..|s|] == s
  {
  }

  /** Two one-element sequences make a pair. */
  lemma PairConcat<T>(a: T, b: T)
    ensures [a] + [b] == [a, b]
  {
  }

  /** Splitting off the first element of the second part of a concatenation. */
  lemma ConsSplit<T>(a: seq<T>, t: seq<T>)
    requires t != []
    ensures a + t == (a + [t[0]]) + t[1..]
  {
    assert t == [t[0]] + t[1..];
  }

  /** `r` ends with `tail`, and what comes before `tail` is a subsequence of `b`. */
  predicate EndsAfter<T(==)>(r: seq<T>, tail: seq<T>, b: seq<T>) {
    |r| >= |tail| && r[|r| - |tail|..] == tail && IsSubsequence(r[..|r| - |tail|], b)
  }

  /** The first element of the tail may count as the last element of `b + [x]` instead. */
  lemma SubsequenceMoveLast<T>(r: seq<T>, x: T, tail: seq<T>, b: seq<T>)
    requires EndsAfter(r, [x] + tail, b)
    ensures EndsAfter(r, tail, b + [x])
  {
    var n := |r| - |[x] + tail|;
    var front := r[..n];
    assert r[|r| - |tail|..] == ([x] + tail)[1..];
    assert r[..|r| - |tail|] == front + [x] by {
      assert r[n] == ([x] + tail)[0];
    }
    SubsequenceSnoc(front, b, x);
  }

  /** More elements on the right of `b` keep the front a subsequence. */
  lemma EndsAfterExtend<T>(r: seq<T>, tail: seq<T>, b: seq<T>, x: T)
    requires EndsAfter(r, tail, b)
    ensures EndsAfter(r, tail, b + [x])
  {
    SubsequenceExtend(r[..|r| - |tail|], b, x);
  }


  /** A prefix of a prefix is a prefix. */
  lemma TakeTake<T>(s: seq<T>, i: nat, j: nat)
    requires j <= i <= |s|
    ensures s[..i][..j] == s[..j]
  {
  }

  /** Regrouping a concatenation that starts with one element. */
  lemma ConsAssoc<T>(a: T, b: seq<T>, c: seq<T>, d: seq<T>)
    ensures ([a] + b) + c + d == [a] + (b + c + d)
  {
  }

  /** Slicing a suffix is slicing the whole sequence further on. */
  lemma DropSlices<T>(s: seq<T>, i: nat, n: nat)
    requires i + n <= |s|
    ensures s[i..][..n] == s[i..i + n] && s[i..][n..] == s[i + n..]
  {
  }

  /** The empty sequence is a right unit. */
  lemma AppendEmpty<T>(a: seq<T>)
    ensures a + [] == a
  {
  }


  /** `a` can be obtained from `b` by deleting elements (order kept). */
  predicate IsSubsequence<T(==)>(a: seq<T>, b: seq<T>)
    decreases |b|
  {
    if a == [] then true
    else if b == [] then false
    else if a[|a| - 1] == b[|b| - 1] then IsSubsequence(a[..|a| - 1], b[..|b| - 1])
    else IsSubsequence(a, b[..|b| - 1])
  }

  lemma {:induction false} SubsequenceLength<T>(a: seq<T>, b: seq<T>)
    requires IsSubsequence(a, b)
    ensures |a| <= |b|
    decreases |b|
  {
    if a != [] {
      if a[|a| - 1] == b[|b| - 1] {
        SubsequenceLength(a[..|a| - 1], b[..|b| - 1]);
      } else {
        SubsequenceLength(a, b[..|b| - 1]);
      }
    }
  }

  /** Deleting the last element of a subsequence leaves a subsequence. */
  lemma {:induction false} SubsequenceDropLast<T>(a: seq<T>, b: seq<T>)
    requires a != [] && IsSubsequence(a, b)
    ensures IsSubsequence(a[..|a| - 1], b)
    decreases |b|, 0
  {
    var a' := a[..|a| - 1];
    if a' != [] {
      if a[|a| - 1] == b[|b| - 1] {
        // IsSubsequence(a', b[..|b|-1]) holds; extend it by the last element of b
        SubsequenceExtend(a', b[..|b| - 1], b[|b| - 1]);
        assert b[..|b| - 1] + [b[|b| - 1]] == b;
      } else {
        SubsequenceDropLast(a, b[..|b| - 1]);
        SubsequenceExtend(a', b[..|b| - 1], b[|b| - 1]);
        assert b[..|b| - 1] + [b[|b| - 1]] == b;
      }
    }
  }

  /** Appending to the larger sequence keeps the relation. */
  lemma {:induction false} SubsequenceExtend<T>(a: seq<T>, b: seq<T>, x: T)
    requires IsSubsequence(a, b)
    ensures IsSubsequence(a, b + [x])
    decreases |b|, 1
  {
    var b' := b + [x];
    assert b'[..|b'| - 1] == b;
    if a != [] && a[|a| - 1] == x {
      SubsequenceDropLast(a, b);
    }
  }

  /** Appending the same element to both keeps the relation. */
  lemma SubsequenceSnoc<T>(a: seq<T>, b: seq<T>, x: T)
    requires IsSubsequence(a, b)
    ensures IsSubsequence(a + [x], b + [x])
  {
    assert (a + [x])[..|a|] == a;
    assert (b + [x])[..|b|] == b;
  }

  /** Every element of a subsequence is an element of the larger sequence. */
  lemma {:induction false} SubsequenceMembers<T>(a: seq<T>, b: seq<T>)
    requires IsSubsequence(a, b)
    ensures forall x :: x in a ==> x in b
    decreases |b|
  {
    if a != [] {
      var b' := b[..|b| - 1];
      if a[|a| - 1] == b[|b| - 1] {
        SubsequenceMembers(a[..|a| - 1], b');
        assert a == a[..|a| - 1] + [a[|a| - 1]];
      } else {
        SubsequenceMembers(a, b');
      }
      assert b == b' + [b[|b| - 1]];
    }
  }

  /** The elements of `s` that satisfy `p`, in their original order and with their repetitions
      (Array.prototype.filter). */
  function Filter<T(==)>(s: seq<T>, p: T -> bool): (r: seq<T>)
    ensures |r| <= |s|
    ensures forall i :: 0 <= i < |r| ==> p(r[i])
    ensures forall x :: x in s && p(x) ==> x in r
    ensures forall x :: x in r ==> x in s
    ensures IsSubsequence(r, s)
    decreases |s|
  {
    if s == [] then []
    else
      var init := s[..|s| - 1];
      var last := s[|s| - 1];
      var r' := Filter(init, p);
      assert s == init + [last];
      if p(last) then
        SubsequenceSnoc(r', init, last);
        r' + [last]
      else
        SubsequenceExtend(r', init, last);
        r'
  }

  /** Filtering keeps every occurrence of an accepted element and none of a rejected one. */
  lemma {:induction false} FilterMultiplicity<T>(s: seq<T>, p: T -> bool, x: T)
    ensures multiset(Filter(s, p))[x] == if p(x) then multiset(s)[x] else 0
    decreases |s|
  {
    if s != [] {
      var init := s[..|s| - 1];
      var last := s[|s| - 1];
      assert s == init + [last];
      FilterMultiplicity(init, p, x);
      assert multiset(s) == multiset(init) + multiset{last};
      if p(last) {
        assert Filter(s, p) == Filter(init, p) + [last];
      } else {
        assert Filter(s, p) == Filter(init, p);
      }
    }
  }
}
