/** The Fisher-Yates shuffle of a target word's characters. The random
    draws are supplied by the caller: js[i] is the index drawn, uniformly
    in [0, i], when the loop stands at position i (js[0] is never used). */
module Shuffle {

  /** The draws fit a word of length n: one per position, js[i] in [0, i]. */
  predicate ValidDraws(js: seq<nat>, n: nat)
  {
    |js| == n && forall i :: 0 <= i < n ==> js[i] <= i
  }

  /** Exchanges the elements at positions i and j. */
  function Swap<T>(s: seq<T>, i: nat, j: nat): (r: seq<T>)
    requires i < |s| && j < |s|
    ensures |r| == |s|
    ensures r[i] == s[j] && r[j] == s[i]
    ensures forall k :: 0 <= k < |s| && k != i && k != j ==> r[k] == s[k]
  {
    s[i := s[j]][j := s[i]]
  }

  /** What the descending loop produces when it starts at position i:
      swap i with js[i], then continue at i - 1, down to position 1. */
  function FisherYates<T>(s: seq<T>, js: seq<nat>, i: int): (r: seq<T>)
    requires ValidDraws(js, |s|) && i < |s|
    ensures |r| == |s|
    decreases i
  {
    if i <= 0 then s else FisherYates(Swap(s, i, js[i]), js, i - 1)
  }

  /** The shuffle is a permutation: every swap keeps the multiset of
      elements, so the whole loop does. */
  lemma {:induction false} FisherYatesPermutes<T>(s: seq<T>, js: seq<nat>, i: int)
    requires ValidDraws(js, |s|) && i < |s|
    ensures multiset(FisherYates(s, js, i)) == multiset(s)
    decreases i
  {
    if i > 0 {
      var t := Swap(s, i, js[i]);
      assert multiset(t) == multiset(s);
      FisherYatesPermutes(t, js, i - 1);
    }
  }

  /** The positions above i are never touched again once the loop has
      passed them. */
  lemma {:induction false} FisherYatesKeepsAbove<T>(s: seq<T>, js: seq<nat>, i: int, k: nat)
    requires ValidDraws(js, |s|) && i < k < |s|
    ensures FisherYates(s, js, i)[k] == s[k]
    decreases i
  {
    if i > 0 {
      FisherYatesKeepsAbove(Swap(s, i, js[i]), js, i - 1, k);
    }
  }

  /** Draws that always pick the position itself leave the word as it is. */
  lemma {:induction false} IdentityDraws<T>(s: seq<T>, js: seq<nat>, i: int)
    requires ValidDraws(js, |s|) && i < |s|
    requires forall k :: 0 <= k < |s| ==> js[k] == k
    ensures FisherYates(s, js, i) == s
    decreases i
  {
    if i > 0 {
      assert Swap(s, i, js[i]) == s;
      IdentityDraws(s, js, i - 1);
    }
  }

  /** The shuffle of startGame: the word is split into a fresh array of
      characters, which is shuffled in place from the last position down. */
  method ShuffledChars(word: string, js: seq<nat>) returns (chars: seq<char>)
    requires ValidDraws(js, |word|)
    ensures chars == FisherYates(word, js, |word| - 1)
    ensures |chars| == |word| && multiset(chars) == multiset(word)
  {
    var a := new char[|word|](k requires 0 <= k < |word| => word[k]);
    assert a[..] == word;
    var i := |word| - 1;
    while i > 0
      invariant -1 <= i < a.Length == |word|
      invariant FisherYates(a[..], js, i) == FisherYates(word, js, |word| - 1)
    {
      var j := js[i];
      ghost var before := a[..];
      var t := a[i];
      a[i] := a[j];
      a[j] := t;
      assert a[..] == Swap(before, i, j) by {
        forall k | 0 <= k < a.Length ensures a[k] == Swap(before, i, j)[k] {
        }
      }
      i := i - 1;
    }
    chars := a[..];
    FisherYatesPermutes(word, js, |word| - 1);
  }
}
