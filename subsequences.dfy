/**
 * Order-preserving selection from a sequence: the shape shared by
 * every "walk the list, keep some elements" loop of the processor.
 */
module Subsequences {

  /** The elements of `s` that satisfy `keep`, in their original order. */
  function Select<T>(s: seq<T>, keep: T -> bool): (r: seq<T>)
    ensures |r| <= |s|
    ensures forall k :: 0 <= k < |r| ==> keep(r[k])
  {
    if s == [] then []
    else
      var last := s[|s| - 1];
      Select(s[..|s| - 1], keep) + (if keep(last) then [last] else [])
  }

  /** Selecting from `s + [x]` selects from `s`, then keeps `x` if it qualifies. */
  lemma SelectAppend<T>(s: seq<T>, keep: T -> bool, x: T)
    ensures Select(s + [x], keep) == Select(s, keep) + (if keep(x) then [x] else [])
  {
    assert (s + [x])[..|s|] == s;
  }

  /** The positions of `s` whose element satisfies `keep`, ascending. */
  function KeptPositions<T>(s: seq<T>, keep: T -> bool): seq<nat>
  {
    if s == [] then []
    else KeptPositions(s[..|s| - 1], keep) + (if keep(s[|s| - 1]) then [|s| - 1] else [])
  }

  ghost predicate StrictlyIncreasing(idx: seq<nat>)
  {
    forall j, k :: 0 <= j < k < |idx| ==> idx[j] < idx[k]
  }

  /** Every kept position is a position of `s`, and the positions ascend. */
  lemma {:induction false} KeptPositionsAscend<T>(s: seq<T>, keep: T -> bool)
    ensures forall k :: 0 <= k < |KeptPositions(s, keep)| ==> KeptPositions(s, keep)[k] < |s|
    ensures StrictlyIncreasing(KeptPositions(s, keep))
  {
    if s != [] {
      KeptPositionsAscend(s[..|s| - 1], keep);
    }
  }

  /** The selection is `s` read at the kept positions. */
  lemma {:induction false} SelectReadsKeptPositions<T>(s: seq<T>, keep: T -> bool)
    ensures |KeptPositions(s, keep)| == |Select(s, keep)|
    ensures forall k :: 0 <= k < |KeptPositions(s, keep)| ==>
              KeptPositions(s, keep)[k] < |s| && Select(s, keep)[k] == s[KeptPositions(s, keep)[k]]
  {
    if s != [] {
      var init := s[..|s| - 1];
      SelectReadsKeptPositions(init, keep);
      forall k | 0 <= k < |KeptPositions(init, keep)|
        ensures s[KeptPositions(init, keep)[k]] == init[KeptPositions(init, keep)[k]]
      {
      }
    }
  }

  /** A position is kept exactly when its element satisfies `keep`. */
  lemma {:induction false} KeptPositionsExact<T>(s: seq<T>, keep: T -> bool)
    ensures forall i :: 0 <= i < |s| ==> (i in KeptPositions(s, keep) <==> keep(s[i]))
  {
    if s != [] {
      var init := s[..|s| - 1];
      KeptPositionsExact(init, keep);
      KeptPositionsAscend(init, keep);
      assert |s| - 1 !in KeptPositions(init, keep);
      forall i | 0 <= i < |s| - 1
        ensures i in KeptPositions(s, keep) <==> keep(s[i])
      {
        assert s[i] == init[i];
      }
    }
  }

  /**
   * `Select(s, keep)` is exactly `s` read at the ascending positions whose
   * element satisfies `keep`: nothing is added, duplicated or reordered, and
   * every satisfying position is taken.
   */
  lemma SelectAtPositions<T>(s: seq<T>, keep: T -> bool)
    ensures |KeptPositions(s, keep)| == |Select(s, keep)|
    ensures StrictlyIncreasing(KeptPositions(s, keep))
    ensures forall k :: 0 <= k < |KeptPositions(s, keep)| ==>
              KeptPositions(s, keep)[k] < |s| && Select(s, keep)[k] == s[KeptPositions(s, keep)[k]]
    ensures forall i :: 0 <= i < |s| ==> (i in KeptPositions(s, keep) <==> keep(s[i]))
  {
    KeptPositionsAscend(s, keep);
    SelectReadsKeptPositions(s, keep);
    KeptPositionsExact(s, keep);
  }

  /** Membership in the selection: an element is there iff it is in `s` and satisfies `keep`. */
  lemma {:induction false} SelectMembership<T>(s: seq<T>, keep: T -> bool, x: T)
    ensures x in Select(s, keep) <==> x in s && keep(x)
  {
    if s != [] {
      var init, last := s[..|s| - 1], s[|s| - 1];
      SelectMembership(init, keep, x);
      assert s == init + [last];
    }
  }

  /** Applies `f` to every element, keeping the order. */
  function MapSeq<T, U>(f: T -> U, s: seq<T>): (r: seq<U>)
    ensures |r| == |s|
    ensures forall k :: 0 <= k < |s| ==> r[k] == f(s[k])
  {
    seq(|s|, k requires 0 <= k < |s| => f(s[k]))
  }
}
