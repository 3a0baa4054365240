/** The word bank: four difficulty tiers of target words, and the choice of
    the tier and the word for a level. */
module WordBank {

  /** The tiers, easiest first. */
  const Words: seq<seq<string>> := [
    ["CAT", "DOG", "HAT", "BAT"],
    ["SNOW", "COLD", "WIND", "STAR"],
    ["WINTER", "SPRING", "SUMMER"],
    ["EXPLORER", "TREASURE", "JOURNEY"]
  ]

  /** The tier of a level: floor(level / 5), clamped to the last tier. */
  function TierIndex(level: int): (t: nat)
    requires level >= 0
    ensures t < |Words|
    ensures 5 * t <= level
    ensures t < |Words| - 1 ==> level < 5 * (t + 1)
  {
    if level / 5 < |Words| - 1 then level / 5 else |Words| - 1
  }

  /** A tier advances only with the level: never down, at most one step
      between consecutive levels. */
  lemma TierMonotone(level: int, later: int)
    requires 0 <= level <= later
    ensures TierIndex(level) <= TierIndex(later)
    ensures later == level + 1 ==> TierIndex(later) <= TierIndex(level) + 1
  {
  }

  /** Whether `pick` is a valid index into the tier of `level`. */
  predicate ValidPick(level: int, pick: nat)
  {
    level >= 0 && pick < |Words[TierIndex(level)]|
  }

  /** The target word for `level`, entry `pick` of its tier. */
  function ChosenWord(level: int, pick: nat): (w: string)
    requires ValidPick(level, pick)
    ensures w in Words[TierIndex(level)]
    ensures 3 <= |w| <= 8
    ensures forall c :: c in w ==> 'A' <= c <= 'Z'
  {
    WordFacts();
    Words[TierIndex(level)][pick]
  }

  /** Every word is 3 to 8 capital letters, and the word length never drops
      from a tier to a later one. */
  lemma WordFacts()
    ensures forall t, k :: 0 <= t < |Words| && 0 <= k < |Words[t]| ==>
      3 <= |Words[t][k]| <= 8 && forall c :: c in Words[t][k] ==> 'A' <= c <= 'Z'
    ensures forall t1, t2, k1, k2 ::
      0 <= t1 < t2 < |Words| && 0 <= k1 < |Words[t1]| && 0 <= k2 < |Words[t2]| ==>
      |Words[t1][k1]| <= |Words[t2][k2]|
  {
    forall t, k | 0 <= t < |Words| && 0 <= k < |Words[t]|
      ensures [3, 4, 6, 7][t] <= |Words[t][k]| <= [3, 4, 6, 8][t]
    {
    }
  }
}
