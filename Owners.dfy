/**
 * Owner lists. A Safe's owners are an ordered list of addresses; adding an
 * owner appends it and removing one keeps every other entry in order.
 */
module Owners {
  import opened Hex

  /** `s` with every occurrence of `x` dropped, the rest in their order. */
  function Without(s: seq<Address>, x: Address): (r: seq<Address>)
    ensures |r| <= |s|
    ensures x !in r
    ensures forall y :: y in r <==> y in s && y != x
  {
    if s == [] then []
    else
      var init := Without(s[..|s| - 1], x);
      if s[|s| - 1] == x then init else init + [s[|s| - 1]]
  }

  /** `t` can be obtained from `s` by deleting entries. */
  ghost predicate IsSubsequence(t: seq<Address>, s: seq<Address>)
    decreases |s|
  {
    if t == [] then true
    else if s == [] then false
    else
      (t[|t| - 1] == s[|s| - 1] && IsSubsequence(t[..|t| - 1], s[..|s| - 1]))
      || IsSubsequence(t, s[..|s| - 1])
  }

  /** Filtering one more entry extends the filtered prefix by that entry unless it is dropped. */
  lemma WithoutSnoc(s: seq<Address>, y: Address, x: Address)
    ensures Without(s + [y], x) == Without(s, x) + (if y == x then [] else [y])
  {
    assert (s + [y])[..|s|] == s;
  }

  /**
   * Removing `x` takes out exactly its occurrences: the multiset of the result
   * is that of `s` with no `x`, so the length drops by the number of times `x`
   * occurred.
   */
  lemma {:induction false} WithoutMultiset(s: seq<Address>, x: Address)
    ensures multiset(Without(s, x)) == multiset(s)[x := 0]
    ensures |Without(s, x)| == |s| - multiset(s)[x]
  {
    if s != [] {
      var init, y := s[..|s| - 1], s[|s| - 1];
      WithoutMultiset(init, x);
      assert s == init + [y];
      assert multiset(s) == multiset(init) + multiset{y};
      if y != x {
        assert multiset(Without(s, x)) == multiset(Without(init, x)) + multiset{y};
      }
    }
  }

  /** Removing keeps the surviving owners in their original relative order. */
  lemma {:induction false} WithoutIsSubsequence(s: seq<Address>, x: Address)
    ensures IsSubsequence(Without(s, x), s)
  {
    if s != [] {
      var init := s[..|s| - 1];
      WithoutIsSubsequence(init, x);
      if s[|s| - 1] != x {
        var r := Without(s, x);
        assert r[..|r| - 1] == Without(init, x);
      } else {
        SubsequenceOfPrefix(Without(init, x), init, s);
      }
    }
  }

  /** A subsequence of `s` minus its last entry is a subsequence of `s`. */
  lemma SubsequenceOfPrefix(t: seq<Address>, init: seq<Address>, s: seq<Address>)
    requires s != [] && init == s[..|s| - 1]
    requires IsSubsequence(t, init)
    ensures IsSubsequence(t, s)
  {
  }

  /** Removing leaves the list untouched exactly when the address is not an owner. */
  lemma {:induction false} WithoutUnchanged(s: seq<Address>, x: Address)
    ensures Without(s, x) == s <==> x !in s
  {
    if s != [] && x !in s {
      var init := s[..|s| - 1];
      WithoutUnchanged(init, x);
      assert s == init + [s[|s| - 1]];
    }
  }

  /** Removing the same address twice is the same as removing it once. */
  lemma WithoutIdempotent(s: seq<Address>, x: Address)
    ensures Without(Without(s, x), x) == Without(s, x)
  {
    WithoutUnchanged(Without(s, x), x);
  }

  /**
   * Adding an owner (appending) and then removing it gives back the list with
   * that owner removed; when it was not an owner before, the exact prior list.
   */
  lemma AddThenRemove(s: seq<Address>, x: Address)
    ensures Without(s + [x], x) == Without(s, x)
    ensures x !in s ==> Without(s + [x], x) == s
  {
    WithoutSnoc(s, x, x);
    WithoutUnchanged(s, x);
  }
}
