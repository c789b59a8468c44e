/** Sequences that lost some of their elements and kept the order of the others. */
module Subsequences {
  /** `part` is what remains of `whole` after deleting some elements. */
  predicate Subsequence<T(==)>(part: seq<T>, whole: seq<T>)
    decreases |whole|
  {
    if whole == [] then part == []
    else
      var n := |whole| - 1;
      Subsequence(part, whole[..n])
      || (part != [] && part[|part| - 1] == whole[n] && Subsequence(part[..|part| - 1], whole[..n]))
  }

  lemma {:induction false} SubsequencePrefix<T>(part: seq<T>, whole: seq<T>, k: nat)
    requires Subsequence(part, whole) && k <= |part|
    ensures Subsequence(part[..k], whole)
    decreases |whole|
  {
    if whole != [] && k < |part| {
      var n := |whole| - 1;
      if Subsequence(part, whole[..n]) {
        SubsequencePrefix(part, whole[..n], k);
      } else {
        assert part[..|part| - 1][..k] == part[..k];
        SubsequencePrefix(part[..|part| - 1], whole[..n], k);
      }
    } else {
      assert k == |part| ==> part[..k] == part;
    }
  }

  /** Dropping a tail and appending one new element to both keeps a subsequence. */
  lemma SubsequenceExtends<T>(part: seq<T>, whole: seq<T>, k: nat, x: T)
    requires Subsequence(part, whole) && k <= |part|
    ensures Subsequence(part[..k] + [x], whole + [x])
  {
    SubsequencePrefix(part, whole, k);
    assert (part[..k] + [x])[..k] == part[..k] && (whole + [x])[..|whole|] == whole;
  }

  lemma {:induction false} SubsequenceInFront<T>(part: seq<T>, whole: seq<T>, x: T, kept: bool)
    requires Subsequence(part, whole)
    ensures Subsequence(if kept then [x] + part else part, [x] + whole)
    decreases |whole|
  {
    var all := [x] + whole;
    var n := |whole|;
    if whole == [] {
      assert all[..0] == [] && [x][..0] == [];
    } else {
      assert all[..n] == [x] + whole[..n - 1] && all[n] == whole[n - 1];
      if Subsequence(part, whole[..n - 1]) {
        SubsequenceInFront(part, whole[..n - 1], x, kept);
      } else {
        var m := |part| - 1;
        SubsequenceInFront(part[..m], whole[..n - 1], x, kept);
        assert ([x] + part)[..m + 1] == [x] + part[..m];
      }
    }
  }
}
