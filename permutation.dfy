/**
 * The host order a dispatch walks: `rand.Perm(n)` returns a permutation of
 * the indices [0, n). The randomness is left out; the order is an input that
 * satisfies IsPermutation.
 */
module Permutation {

  /** order lists every index in [0, n) exactly once. */
  predicate IsPermutation(order: seq<nat>, n: nat) {
    && |order| == n
    && (forall k :: 0 <= k < n ==> order[k] < n)
    && (forall j, k :: 0 <= j < k < n ==> order[j] != order[k])
  }

  /** The indices [0, n). */
  function Below(n: nat): (r: set<nat>)
    ensures |r| == n
    ensures forall x: nat :: x in r <==> x < n
  {
    if n == 0 then {} else Below(n - 1) + {n - 1}
  }

  /** The values listed in s. */
  function Image(s: seq<nat>): set<nat>
  {
    set x | x in s
  }

  lemma {:induction false} DistinctImageSize(s: seq<nat>)
    requires forall j, k :: 0 <= j < k < |s| ==> s[j] != s[k]
    ensures |Image(s)| == |s|
  {
    if s != [] {
      var init := s[..|s| - 1];
      DistinctImageSize(init);
      assert s == init + [s[|s| - 1]];
      assert Image(s) == Image(init) + {s[|s| - 1]};
    }
  }

  lemma SubsetSize(a: set<nat>, b: set<nat>)
    requires a <= b
    ensures |a| <= |b|
  {
    assert b == a + (b - a);
  }

  /** No omissions: every index in [0, n) occurs in a permutation of [0, n). */
  lemma Covers(order: seq<nat>, n: nat, h: nat)
    requires IsPermutation(order, n)
    requires h < n
    ensures exists k :: 0 <= k < n && order[k] == h
  {
    DistinctImageSize(order);
    if h !in Image(order) {
      assert Image(order) <= Below(n) - {h};
      SubsetSize(Image(order), Below(n) - {h});
      assert false;
    }
  }
}
