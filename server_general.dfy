/**
 * `getRandomSubarray` from Server/src/utils/general.ts: a partial
 * Fisher-Yates shuffle of a copy of the input that returns its last `size`
 * elements. The index `Math.floor((i + 1) * Math.random())` drawn when the
 * loop visits position i is supplied as `picks[i]`, which lies in 0..i.
 */
module ServerGeneral {
  import opened Wrappers
  import Text

  /** s with positions i and j exchanged. */
  function SwapAt<T>(s: seq<T>, i: nat, j: nat): (r: seq<T>)
    requires i < |s| && j < |s|
    ensures |r| == |s|
  {
    s[i := s[j]][j := s[i]]
  }

  /** A swap keeps the multiset of the sequence. */
  lemma SwapAtPermutes<T>(s: seq<T>, i: nat, j: nat)
    requires i < |s| && j < |s|
    ensures multiset(SwapAt(s, i, j)) == multiset(s)
  {
  }

  predicate ValidPicks(picks: seq<nat>) {
    forall i :: 0 <= i < |picks| ==> picks[i] <= i
  }

  /**
   * The copy after the loop has visited positions |s| - 1 down to `stop`,
   * swapping position i with position picks[i] at each visit.
   */
  function ShuffleDown<T>(s: seq<T>, picks: seq<nat>, stop: nat): (r: seq<T>)
    requires |picks| == |s| && ValidPicks(picks) && stop <= |s|
    decreases |s| - stop
    ensures |r| == |s|
  {
    if stop == |s| then s
    else SwapAt(ShuffleDown(s, picks, stop + 1), picks[stop], stop)
  }

  /** Each swap keeps the multiset of the copy. */
  lemma {:induction false} ShuffleDownPermutes<T>(s: seq<T>, picks: seq<nat>, stop: nat)
    requires |picks| == |s| && ValidPicks(picks) && stop <= |s|
    decreases |s| - stop
    ensures multiset(ShuffleDown(s, picks, stop)) == multiset(s)
  {
    if stop < |s| {
      var before := ShuffleDown(s, picks, stop + 1);
      ShuffleDownPermutes(s, picks, stop + 1);
      SwapAtPermutes(before, picks[stop], stop);
      assert ShuffleDown(s, picks, stop) == SwapAt(before, picks[stop], stop);
    }
  }

  /** A suffix holds a sub-multiset of the whole sequence. */
  lemma SuffixSubMultiset<T>(s: seq<T>, k: nat)
    requires k <= |s|
    ensures multiset(s[k..]) <= multiset(s)
  {
    assert s == s[..k] + s[k..];
  }

  /** The outcome the method computes, as a function of the input sequence. */
  function RandomSubarray<T>(s: seq<T>, size: int, picks: seq<nat>): (r: Result<seq<T>, string>)
    requires |picks| == |s| && ValidPicks(picks)
    ensures r.Failure? <==> size < 0 || size > |s|
    ensures r.Success? ==> |r.value| == size && multiset(r.value) <= multiset(s)
  {
    if size < 0 || size > |s| then
      Failure("Invalid size: " + Text.IntToString(size) + ". Must be between 0 and " + Text.IntToString(|s|))
    else
      var shuffled := ShuffleDown(s, picks, |s| - size);
      ShuffleDownPermutes(s, picks, |s| - size);
      SuffixSubMultiset(shuffled, |s| - size);
      Success(shuffled[|s| - size..])
  }

  /** Asking for every element returns a permutation of the input; asking for none returns nothing. */
  lemma RandomSubarrayExtremes<T>(s: seq<T>, picks: seq<nat>)
    requires |picks| == |s| && ValidPicks(picks)
    ensures RandomSubarray(s, |s|, picks).Success?
    ensures multiset(RandomSubarray(s, |s|, picks).value) == multiset(s)
    ensures RandomSubarray(s, 0, picks) == Success([])
  {
    ShuffleDownPermutes(s, picks, 0);
    assert ShuffleDown(s, picks, 0)[0..] == ShuffleDown(s, picks, 0);
  }

  /** `[a[i], a[j]] = [a[j], a[i]]`. */
  method Swap<T>(a: array<T>, i: nat, j: nat)
    requires i < a.Length && j < a.Length
    modifies a
    ensures a[..] == SwapAt(old(a[..]), i, j)
  {
    a[i], a[j] := a[j], a[i];
  }

  /** The `while (i-- > min)` loop: swap position i with position picks[i] for i from |a| - 1 down to min. */
  method ShuffleInPlace<T>(a: array<T>, picks: seq<nat>, min: nat)
    requires |picks| == a.Length && ValidPicks(picks) && min <= a.Length
    modifies a
    ensures a[..] == ShuffleDown(old(a[..]), picks, min)
  {
    ghost var src := a[..];
    var i := a.Length;
    while i > min
      invariant min <= i <= a.Length
      invariant a[..] == ShuffleDown(src, picks, i)
    {
      i := i - 1;
      Swap(a, picks[i], i);
    }
  }

  /** `getRandomSubarray(arr, size)`: the swaps act on a fresh copy, so arr is left as it was. */
  method GetRandomSubarray<T>(arr: array<T>, size: int, picks: seq<nat>) returns (r: Result<seq<T>, string>)
    requires |picks| == arr.Length && ValidPicks(picks)
    ensures r == RandomSubarray(arr[..], size, picks)
  {
    if size < 0 || size > arr.Length {
      return Failure("Invalid size: " + Text.IntToString(size) + ". Must be between 0 and "
        + Text.IntToString(arr.Length));
    }
    var src := arr[..];
    var shuffled := new T[arr.Length](k requires 0 <= k < |src| => src[k]);
    assert shuffled[..] == src;
    var min := arr.Length - size;
    ShuffleInPlace(shuffled, picks, min);
    r := Success(shuffled[min..]);
  }
}
