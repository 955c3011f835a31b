/** Counting the elements of a sequence that satisfy a test. */
module Counting {

  /** Number of elements of `s` for which `p` holds, counted left to right. */
  function CountWhere<T>(s: seq<T>, p: T -> bool): (n: nat)
    ensures n <= |s|
    ensures n == 0 <==> forall i :: 0 <= i < |s| ==> !p(s[i])
  {
    if s == [] then 0
    else CountWhere(s[..|s| - 1], p) + (if p(s[|s| - 1]) then 1 else 0)
  }

  /** The positions of `s` whose element satisfies `p`. */
  function IndicesWhere<T>(s: seq<T>, p: T -> bool): set<nat> {
    set i: nat | i < |s| && p(s[i])
  }

  /** Counting agrees with the size of the set of satisfying positions. */
  lemma {:induction false} CountIsIndexCount<T>(s: seq<T>, p: T -> bool)
    ensures CountWhere(s, p) == |IndicesWhere(s, p)|
  {
    if s != [] {
      var n := |s| - 1;
      var init := s[..n];
      CountIsIndexCount(init, p);
      var before := IndicesWhere(init, p);
      var extra: set<nat> := if p(s[n]) then {n} else {};
      assert IndicesWhere(s, p) == before + extra by {
        forall i: nat | i in IndicesWhere(s, p) ensures i in before + extra {
          if i < n { assert init[i] == s[i]; }
        }
        forall i: nat | i in before + extra ensures i in IndicesWhere(s, p) {
          if i < n { assert init[i] == s[i]; }
        }
      }
      assert before !! extra;
    }
  }

  /** Every element either satisfies `p` or does not: the two counts make up the length. */
  lemma {:induction false} CountComplement<T>(s: seq<T>, p: T -> bool, q: T -> bool)
    requires forall x :: q(x) == !p(x)
    ensures CountWhere(s, p) + CountWhere(s, q) == |s|
  {
    if s != [] {
      CountComplement(s[..|s| - 1], p, q);
    }
  }

}
