/**
 * CollectionExtensions: a random element and an in-place Fisher-Yates shuffle. Random.Range is an
 * oracle: its answers are parameters, each in the range the source asks for.
 */
module CollectionExtensions {
  import opened Wrappers
  import opened Lists

  /** GetRandom: nothing (default) for an empty list, otherwise the element at the oracle's index. */
  function GetRandom<T>(list: seq<T>, pick: nat): (r: Option<T>)
    requires |list| > 0 ==> pick < |list|
    ensures r.None? <==> |list| == 0
    ensures r.Some? ==> r.value in list && r.value == list[pick]
  {
    if |list| == 0 then None else Some(list[pick])
  }

  /** The oracle answers a shuffle needs: for step i, an index in [0, i]. */
  predicate ValidPicks(picks: seq<nat>, n: nat) {
    |picks| == n && forall i :: 0 < i < n ==> picks[i] <= i
  }

  /** The steps of the shuffle from position i down to 1. */
  function Shuffled<T>(s: seq<T>, picks: seq<nat>, i: nat): seq<T>
    requires ValidPicks(picks, |s|) && (i < |s| || i == 0)
    decreases i
  {
    if i == 0 then s else Shuffled(Swap(s, i, picks[i]), picks, i - 1)
  }

  /** The whole shuffle. */
  function Shuffle<T>(s: seq<T>, picks: seq<nat>): seq<T>
    requires ValidPicks(picks, |s|)
  {
    if |s| == 0 then s else Shuffled(s, picks, |s| - 1)
  }

  /** A shuffle is a permutation. */
  lemma {:induction false} ShuffledPermutation<T>(s: seq<T>, picks: seq<nat>, i: nat)
    requires ValidPicks(picks, |s|) && (i < |s| || i == 0)
    ensures |Shuffled(s, picks, i)| == |s| && multiset(Shuffled(s, picks, i)) == multiset(s)
    decreases i
  {
    if i > 0 {
      var t := Swap(s, i, picks[i]);
      ShuffledPermutation(t, picks, i - 1);
      SwapPermutation(s, i, picks[i]);
    }
  }

  /** Positions above i are never touched by the remaining steps. */
  lemma {:induction false} ShuffledKeepsAbove<T>(s: seq<T>, picks: seq<nat>, i: nat, k: nat)
    requires ValidPicks(picks, |s|) && (i < |s| || i == 0) && i < k < |s|
    ensures |Shuffled(s, picks, i)| == |s| && Shuffled(s, picks, i)[k] == s[k]
    decreases i
  {
    ShuffledPermutation(s, picks, i);
    if i > 0 {
      ShuffledKeepsAbove(Swap(s, i, picks[i]), picks, i - 1, k);
    }
  }

  /** Lists of at most one element are left as they are. */
  lemma ShuffleShort<T>(s: seq<T>, picks: seq<nat>)
    requires ValidPicks(picks, |s|) && |s| <= 1
    ensures Shuffle(s, picks) == s
  {
  }

  /** Shuffle: for i from the last position down to 1, swaps positions i and picks[i]. */
  method ShuffleInPlace<T>(a: array<T>, picks: seq<nat>)
    requires ValidPicks(picks, a.Length)
    modifies a
    ensures a[..] == Shuffle(old(a[..]), picks)
    ensures multiset(a[..]) == multiset(old(a[..]))
  {
    if a.Length == 0 {
      return;
    }
    ghost var final := Shuffle(old(a[..]), picks);
    ShuffledPermutation(old(a[..]), picks, a.Length - 1);
    var i := a.Length - 1;
    while i > 0
      invariant 0 <= i < a.Length
      invariant Shuffled(a[..], picks, i) == final
      invariant forall k :: i < k < a.Length ==> a[k] == final[k]
    {
      var j := picks[i];
      a[i], a[j] := a[j], a[i];
      i := i - 1;
      KeptAbove(a[..], picks, i);
    }
  }

  /** The positions above i already hold their final values once the loop has reached i. */
  lemma KeptAbove<T>(s: seq<T>, picks: seq<nat>, i: nat)
    requires ValidPicks(picks, |s|) && (i < |s| || i == 0)
    ensures |Shuffled(s, picks, i)| == |s|
    ensures forall k :: i < k < |s| ==> Shuffled(s, picks, i)[k] == s[k]
  {
    ShuffledPermutation(s, picks, i);
    forall k | i < k < |s| {
      ShuffledKeepsAbove(s, picks, i, k);
    }
  }
}
