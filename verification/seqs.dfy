/** Python's slicing and list-comprehension filtering on sequences, and the
    order-preserving subsequence relation their contracts are stated with. */
module Seqs {

  function Min(a: int, b: int): int {
    if a <= b then a else b
  }

  /** The elements of `s`, as a set (Python's `set(s)`). */
  function Elements<T>(s: seq<T>): set<T> {
    set x | x in s
  }

  /** A prefix one element longer is the shorter prefix plus that element. */
  lemma PrefixSnoc<T>(s: seq<T>, i: nat)
    requires i < |s|
    ensures s[..i + 1] == s[..i] + [s[i]]
  {
  }

  lemma ElementsOfSnoc<T>(s: seq<T>, x: T)
    ensures Elements(s + [x]) == Elements(s) + {x}
  {
    var after := Elements(s + [x]);
    forall y | y in after
      ensures y in Elements(s) + {x}
    {
    }
  }

  /** `s[:n]` for `n >= 0`: the first `n` elements, or all of `s` when it is shorter. */
  function Take<T>(s: seq<T>, n: nat): (r: seq<T>)
    ensures |r| == Min(n, |s|)
    ensures r == s[..|r|]
  {
    if n <= |s| then s[..n] else s
  }

  /** `s[n:]` for `n >= 0`: everything after the first `n` elements. */
  function Drop<T>(s: seq<T>, n: nat): (r: seq<T>)
    ensures |r| == |s| - Min(n, |s|)
    ensures r == s[|s| - |r|..]
  {
    if n <= |s| then s[n..] else []
  }

  /** `s[-n:]` for `n > 0`: the last `n` elements, or all of `s` when it is shorter. */
  function Last<T>(s: seq<T>, n: nat): (r: seq<T>)
    requires n > 0
    ensures |r| == Min(n, |s|)
    ensures r == s[|s| - |r|..]
  {
    if n <= |s| then s[|s| - n..] else s
  }

  /** `a` can be obtained from `b` by deleting elements: it keeps `b`'s order. */
  ghost predicate IsSubsequence<T>(a: seq<T>, b: seq<T>)
    decreases |b|
  {
    if a == [] then true
    else if b == [] then false
    else (a[|a| - 1] == b[|b| - 1] && IsSubsequence(a[..|a| - 1], b[..|b| - 1]))
         || IsSubsequence(a, b[..|b| - 1])
  }

  lemma SubsequenceExtend<T>(a: seq<T>, b: seq<T>, x: T)
    requires IsSubsequence(a, b)
    ensures IsSubsequence(a, b + [x])
  {
    assert (b + [x])[..|b|] == b;
  }

  /** Every element of a subsequence occurs in the sequence it was taken from. */
  lemma {:induction false} SubsequenceMembers<T>(a: seq<T>, b: seq<T>)
    requires IsSubsequence(a, b)
    ensures forall k :: 0 <= k < |a| ==> a[k] in b
    decreases |b|
  {
    if a != [] {
      var b' := b[..|b| - 1];
      if a[|a| - 1] == b[|b| - 1] && IsSubsequence(a[..|a| - 1], b') {
        SubsequenceMembers(a[..|a| - 1], b');
        forall k | 0 <= k < |a|
          ensures a[k] in b
        {
          if k < |a| - 1 {
            assert a[k] == a[..|a| - 1][k];
            assert a[k] in b';
          }
        }
      } else {
        SubsequenceMembers(a, b');
        assert forall x :: x in b' ==> x in b;
      }
    }
  }

  /** Every prefix of a subsequence is again a subsequence. */
  lemma {:induction false} SubsequencePrefix<T>(a: seq<T>, b: seq<T>, k: nat)
    requires IsSubsequence(a, b)
    requires k <= |a|
    ensures IsSubsequence(a[..k], b)
    decreases |b|
  {
    if k == |a| {
      assert a[..k] == a;
    } else {
      var b' := b[..|b| - 1];
      assert b == b' + [b[|b| - 1]];
      if a[|a| - 1] == b[|b| - 1] && IsSubsequence(a[..|a| - 1], b') {
        SubsequencePrefix(a[..|a| - 1], b', k);
        assert a[..|a| - 1][..k] == a[..k];
      } else {
        SubsequencePrefix(a, b', k);
      }
      SubsequenceExtend(a[..k], b', b[|b| - 1]);
    }
  }

  /** `[x for x in s if keep(x)]`. */
  function Filter<T>(s: seq<T>, keep: T -> bool): (r: seq<T>)
    ensures |r| <= |s|
    ensures IsSubsequence(r, s)
  {
    if s == [] then []
    else
      var init := Filter(s[..|s| - 1], keep);
      assert s == s[..|s| - 1] + [s[|s| - 1]];
      if keep(s[|s| - 1]) then
        assert (init + [s[|s| - 1]])[..|init|] == init;
        init + [s[|s| - 1]]
      else
        init
  }

  /** A filter keeps exactly the elements that pass: everything kept passes,
      everything that passes is kept, and each passing value is kept as many
      times as it occurs. */
  lemma {:induction false} FilterSpec<T>(s: seq<T>, keep: T -> bool)
    ensures forall i :: 0 <= i < |Filter(s, keep)| ==> keep(Filter(s, keep)[i])
    ensures forall i :: 0 <= i < |s| && keep(s[i]) ==> s[i] in Filter(s, keep)
    ensures forall x :: multiset(Filter(s, keep))[x] == if keep(x) then multiset(s)[x] else 0
  {
    if s != [] {
      var init := s[..|s| - 1];
      FilterSpec(init, keep);
      var r := Filter(s, keep);
      var r0 := Filter(init, keep);
      assert s == init + [s[|s| - 1]];
      assert multiset(s) == multiset(init) + multiset{s[|s| - 1]};
      assert r == if keep(s[|s| - 1]) then r0 + [s[|s| - 1]] else r0;
      forall i | 0 <= i < |s| && keep(s[i])
        ensures s[i] in r
      {
        if i < |init| {
          assert s[i] == init[i];
        }
      }
    }
  }

  /** Of three elements, a middle one that fails the test is the only one dropped. */
  lemma FilterDropsMiddle<T>(a: T, b: T, c: T, keep: T -> bool)
    requires keep(a) && !keep(b) && keep(c)
    ensures Filter([a, b, c], keep) == [a, c]
  {
    assert [a][..0] == [];
    assert Filter([a], keep) == [a];
    assert [a, b][..1] == [a];
    assert Filter([a, b], keep) == [a];
    assert [a, b, c][..2] == [a, b];
    assert Filter([a, b, c], keep) == [a] + [c];
  }

  /** A filter that keeps every element returns its input. */
  lemma {:induction false} FilterKeepsAll<T>(s: seq<T>, keep: T -> bool)
    requires forall i :: 0 <= i < |s| ==> keep(s[i])
    ensures Filter(s, keep) == s
  {
    if s != [] {
      FilterKeepsAll(s[..|s| - 1], keep);
    }
  }

  /** The elements of `s` in the opposite order. */
  function Reverse<T>(s: seq<T>): (r: seq<T>)
    ensures |r| == |s|
    ensures forall i :: 0 <= i < |s| ==> r[i] == s[|s| - 1 - i]
  {
    if s == [] then [] else Reverse(s[1..]) + [s[0]]
  }
}
