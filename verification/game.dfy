/** The game controller: the menu / game / complete state machine, the
    start of a round, tap handling, scoring and the countdown. */
module WordGame {
  import opened Geometry
  import opened WordBank
  import opened Shuffle
  import opened Selection
  import opened Entities

  datatype Screen = Menu | Playing | Complete

  /** The menu actions that start a new round: Play Game and Daily Challenge. */
  predicate StartsGame(a: Option<Action>)
  {
    a == Some(PlayGame) || a == Some(DailyChallenge)
  }

  /** Seconds on the clock at the start of every round. */
  const RoundTime: real := 180.0
  /** Particles of the burst on a selected tile. */
  const TileBurst: nat := 10
  /** Particles of the burst celebrating a completed word, and its origin. */
  const WinBurst: nat := 50
  const WinBurstX: real := (Width / 2) as real
  const WinBurstY: real := 300.0

  /** Points for a completed word after `combo` earlier completions. */
  function Award(combo: int): int
  {
    100 * (combo + 1)
  }

  /** The score and combo after one completed word: the award at the
      current combo is added, and the combo rises by one. */
  function Win(score: int, combo: int): (r: (int, int))
    ensures combo >= 0 ==> score < r.0 && combo < r.1
  {
    (score + Award(combo), combo + 1)
  }

  /** The score and combo after k completed words in a row. */
  function Wins(score: int, combo: int, k: nat): (int, int)
    decreases k
  {
    if k == 0 then (score, combo)
    else
      var (s, c) := Win(score, combo);
      Wins(s, c, k - 1)
  }

  /** Points earned by k consecutive completed words, the first at combo c:
      the sum of the awards at combos c, c + 1, ..., c + k - 1. */
  function StreakPoints(c: int, k: nat): int
    decreases k
  {
    if k == 0 then 0 else Award(c) + StreakPoints(c + 1, k - 1)
  }

  /** The combo is never reset, so k wins from (s, c) add the awards of k
      consecutive combos to the score and k to the combo. */
  lemma {:induction false} WinsStreak(s: int, c: int, k: nat)
    ensures Wins(s, c, k) == (s + StreakPoints(c, k), c + k)
    decreases k
  {
    if k > 0 {
      WinsStreak(s + Award(c), c + 1, k - 1);
    }
  }

  /** k wins from combo c earn 100 * (c + 1) + ... + 100 * (c + k). */
  lemma {:induction false} StreakPointsSum(c: int, k: nat)
    ensures 2 * StreakPoints(c, k) == 100 * k * (2 * c + k + 1)
    decreases k
  {
    if k > 0 {
      StreakPointsSum(c + 1, k - 1);
      assert 100 * (k - 1) * (2 * (c + 1) + (k - 1) + 1) + 200 * (c + 1) == 100 * k * (2 * c + k + 1);
    }
  }

  /** Without a reset, k wins from combo 0 score 50 * k * (k + 1) in all. */
  lemma WinsFromStart(s: int, k: nat)
    ensures Wins(s, 0, k) == (s + 50 * k * (k + 1), k)
  {
    WinsStreak(s, 0, k);
    StreakPointsSum(0, k);
  }

  /** A duplicate-free selection of the round's tiles spells the target word
      only once every tile is selected: no shorter selection matches. */
  lemma MatchSelectsEveryTile(sel: seq<Letter>, ls: seq<Letter>, target: string)
    requires NoDup(sel) && forall k :: 0 <= k < |sel| ==> sel[k] in ls
    requires |ls| == |target| && Chars(sel) == target
    ensures forall i :: 0 <= i < |ls| ==> ls[i] in sel
  {
    CoversAll(sel, ls);
  }

  /** The draws a new round at `level` consumes: the word pick and one
      Fisher-Yates draw per position of the chosen word. */
  predicate CanStart(level: int, pick: nat, js: seq<nat>)
  {
    ValidPick(level, pick) && ValidDraws(js, |ChosenWord(level, pick)|)
  }

  /** The tiles startGame lays out for the shuffled characters: one fresh,
      unselected tile per character, tile i at rest in slot i of the row. */
  method LayOut(chars: seq<char>) returns (ls: seq<Letter>)
    ensures |ls| == |chars| && Chars(ls) == chars
    ensures forall i :: 0 <= i < |ls| ==>
      fresh(ls[i]) && ls[i].index == i && ls[i].InSlot(|ls|) && !ls[i].selected
  {
    var n := |chars|;
    ls := [];
    var i := 0;
    while i < n
      invariant 0 <= i <= n && |ls| == i
      invariant Chars(ls) == chars[..i]
      invariant forall k :: 0 <= k < i ==>
        fresh(ls[k]) && ls[k].index == k && ls[k].InSlot(n) && !ls[k].selected
    {
      var l := new Letter(chars[i], TileX(n, i) as real, TileRowY as real, i);
      CharsAppend(ls, l);
      assert chars[..i + 1] == chars[..i] + [chars[i]];
      ls := ls + [l];
      i := i + 1;
    }
    assert chars[..n] == chars;
  }

  class Game {
    var state: Screen
    var score: int
    var level: int
    var combo: int
    /** Seconds left in the round. */
    var time: real
    var particles: seq<Particle>
    /** The tiles of the round, in row order. */
    var letters: seq<Letter>
    /** The selection sequence, in the order the tiles were selected. */
    var selectedLetters: seq<Letter>
    var targetWord: string

    /** The tiles spell a permutation of the target word and stand at rest
        in their slots; the selection has no duplicates and holds exactly
        the tiles whose flag is set. */
    ghost predicate Valid()
      reads this, letters
    {
      level >= 1 && score >= 0 && combo >= 0 &&
      multiset(Chars(letters)) == multiset(targetWord) &&
      (forall i :: 0 <= i < |letters| ==> letters[i].index == i && letters[i].InSlot(|letters|)) &&
      NoDup(selectedLetters) &&
      (forall k :: 0 <= k < |selectedLetters| ==> selectedLetters[k] in letters) &&
      (forall i :: 0 <= i < |letters| ==> (letters[i].selected <==> letters[i] in selectedLetters))
    }

    /** The state right after startGame has chosen `word` and shuffled it
        with the draws js. */
    ghost predicate NewRound(word: string, js: seq<nat>)
      reads this, letters
      requires ValidDraws(js, |word|)
    {
      state == Playing && time == RoundTime && selectedLetters == [] &&
      targetWord == word &&
      Chars(letters) == FisherYates(word, js, |word| - 1) &&
      (forall i :: 0 <= i < |letters| ==> !letters[i].selected)
    }

    /** The effect of one tap on tile l during a round: l is toggled in the
        selection; a selection bursts particles at the tile and completes
        the level when the selection spells the target word. */
    twostate predicate Tapped(new l: Letter)
      reads this, l
    {
      selectedLetters == Toggled(old(selectedLetters), l) &&
      letters == old(letters) && level == old(level) && time == old(time) &&
      targetWord == old(targetWord) &&
      if l in old(selectedLetters) then
        score == old(score) && combo == old(combo) && state == old(state) &&
        particles == old(particles)
      else
        var burst := old(particles) + Burst(l.x, l.y, TileBurst);
        if Chars(selectedLetters) == targetWord then
          (score, combo) == Win(old(score), old(combo)) &&
          state == Complete && particles == burst + Burst(WinBurstX, WinBurstY, WinBurst)
        else
          score == old(score) && combo == old(combo) && state == old(state) &&
          particles == burst
    }

    constructor ()
      ensures Valid()
      ensures state == Menu && score == 0 && level == 1 && combo == 0 && time == RoundTime
      ensures particles == [] && letters == [] && selectedLetters == [] && targetWord == ""
    {
      state, score, level, combo, time := Menu, 0, 1, 0, RoundTime;
      particles, letters, selectedLetters, targetWord := [], [], [], "";
    }

    /** Starts a round: picks the word of the level's tier and sets it up. */
    method StartGame(pick: nat, js: seq<nat>)
      requires Valid() && CanStart(level, pick, js)
      modifies this
      ensures level == old(level) && Valid() && NewRound(ChosenWord(level, pick), js)
      ensures forall i :: 0 <= i < |letters| ==> fresh(letters[i])
      ensures score == old(score) && combo == old(combo) && particles == old(particles)
    {
      SetUpRound(ChosenWord(level, pick), js);
    }

    /** The rest of startGame once the word is chosen: resets the clock and
        the selection, shuffles the word and lays out one tile per character. */
    method SetUpRound(word: string, js: seq<nat>)
      requires level >= 1 && score >= 0 && combo >= 0 && ValidDraws(js, |word|)
      modifies this
      ensures Valid() && NewRound(word, js)
      ensures forall i :: 0 <= i < |letters| ==> fresh(letters[i])
      ensures score == old(score) && level == old(level) && combo == old(combo)
      ensures particles == old(particles)
    {
      state := Playing;
      time := RoundTime;
      selectedLetters := [];
      targetWord := word;
      var chars := ShuffledChars(targetWord, js);
      var ls := LayOut(chars);
      letters := ls;
    }

    /** Appends `count` particles at (x, y). */
    method CreateParticles(x: real, y: real, count: nat)
      modifies this`particles
      ensures particles == old(particles) + Burst(x, y, count)
    {
      var i := 0;
      while i < count
        invariant 0 <= i <= count
        invariant particles == old(particles) + Burst(x, y, i)
      {
        particles := particles + [Particle(x, y)];
        i := i + 1;
      }
    }

    /** Compares the concatenated selection with the target word; an exact
        match scores 100 * (combo + 1), raises the combo and completes the level. */
    method CheckWord()
      requires Valid()
      modifies this
      ensures Valid()
      ensures Chars(selectedLetters) == targetWord ==>
        (score, combo) == Win(old(score), old(combo)) &&
        state == Complete && particles == old(particles) + Burst(WinBurstX, WinBurstY, WinBurst)
      ensures Chars(selectedLetters) == targetWord ==> forall i :: 0 <= i < |letters| ==> letters[i].selected
      ensures Chars(selectedLetters) != targetWord ==> unchanged(this)
      ensures letters == old(letters) && selectedLetters == old(selectedLetters)
      ensures level == old(level) && time == old(time) && targetWord == old(targetWord)
    {
      var word := Chars(selectedLetters);
      if word == targetWord {
        assert |multiset(Chars(letters))| == |multiset(targetWord)|;
        MatchSelectsEveryTile(selectedLetters, letters, targetWord);
        score := score + Award(combo);
        combo := combo + 1;
        CreateParticles(WinBurstX, WinBurstY, WinBurst);
        state := Complete;
      }
    }

    /** A tap on one tile during a round: select it (burst, then check the
        word) or deselect it (filter it out of the selection). */
    method TapLetter(l: Letter)
      requires Valid() && l in letters
      modifies this, l`selected
      ensures Valid() && Tapped(l)
      ensures l.selected == !old(l.selected)
    {
      if !l.selected {
        l.selected := true;
        selectedLetters := selectedLetters + [l];
        CreateParticles(l.x, l.y, TileBurst);
        CheckWord();
      } else {
        l.selected := false;
        WithoutNoDup(selectedLetters, l);
        ghost var before := selectedLetters;
        selectedLetters := Without(selectedLetters, l);
        forall k | 0 <= k < |selectedLetters|
          ensures selectedLetters[k] in before
        {
          InWithout(before, l, selectedLetters[k]);
        }
        forall i | 0 <= i < |letters|
          ensures letters[i] in selectedLetters <==> letters[i] in before && letters[i] != l
        {
          InWithout(before, l, letters[i]);
        }
      }
    }

    /** A tap during a round: every tile whose hit box holds the tap is
        toggled, in row order. The hit boxes are disjoint, so this toggles
        the one tile HitTile names, or nothing. */
    method TapTiles(px: real, py: real)
      requires Valid() && state == Playing
      modifies this, letters`selected
      ensures Valid()
      ensures HitTile(|letters|, px, py).None? ==> unchanged(this)
      ensures HitTile(|letters|, px, py).Some? ==> Tapped(letters[HitTile(|letters|, px, py).value])
    {
      ghost var hit := HitTile(|letters|, px, py);
      var ls := letters;
      var i := 0;
      while i < |ls|
        invariant 0 <= i <= |ls| && ls == letters == old(letters)
        invariant Valid()
        invariant hit.None? || i <= hit.value ==> unchanged(this)
        invariant hit.Some? && hit.value < i ==> Tapped(ls[hit.value])
      {
        var l := ls[i];
        if l.Contains(px, py) {
          assert HitsSlot(|ls|, i, px, py);
          TapLetter(l);
        }
        i := i + 1;
      }
    }

    /** A tap on the menu: Play and Daily Challenge start a round, the
        Achievements button only shows a dialog, a tap outside every
        button is ignored. */
    method TapMenu(py: real, pick: nat, js: seq<nat>)
      requires Valid() && state == Menu
      requires StartsGame(ButtonAt(py)) ==> CanStart(level, pick, js)
      modifies this
      ensures Valid()
      ensures StartsGame(ButtonAt(py)) ==>
        level == old(level) && NewRound(ChosenWord(level, pick), js) && score == old(score) &&
        combo == old(combo) && particles == old(particles)
      ensures !StartsGame(ButtonAt(py)) ==> unchanged(this)
      ensures forall i :: 0 <= i < |letters| ==> letters[i] in old(letters) || fresh(letters[i])
    {
      var action := ButtonAt(py);
      if StartsGame(action) {
        StartGame(pick, js);
      }
    }

    /** A tap on the completion overlay: the Continue button raises the
        level by one and starts the next round; any other tap is ignored. */
    method TapComplete(py: real, pick: nat, js: seq<nat>)
      requires Valid() && state == Complete
      requires InContinue(py) ==> CanStart(level + 1, pick, js)
      modifies this
      ensures Valid()
      ensures InContinue(py) ==>
        level == old(level) + 1 && NewRound(ChosenWord(level, pick), js) && score == old(score) &&
        combo == old(combo) && particles == old(particles)
      ensures !InContinue(py) ==> unchanged(this)
      ensures forall i :: 0 <= i < |letters| ==> letters[i] in old(letters) || fresh(letters[i])
    {
      if InContinue(py) {
        level := level + 1;
        StartGame(pick, js);
      }
    }

    /** The tap handler: dispatches on the state. Score and combo never
        decrease, and the level rises only through Continue. */
    method HandleClick(px: real, py: real, pick: nat, js: seq<nat>)
      requires Valid()
      requires state == Menu && StartsGame(ButtonAt(py)) ==> CanStart(level, pick, js)
      requires state == Complete && InContinue(py) ==> CanStart(level + 1, pick, js)
      modifies this, letters`selected
      ensures Valid()
      ensures old(state) == Menu ==>
        if StartsGame(ButtonAt(py)) then
          level == old(level) && NewRound(ChosenWord(level, pick), js) &&
          score == old(score) && combo == old(combo) && particles == old(particles)
        else unchanged(this)
      ensures old(state) == Playing ==>
        match old(HitTile(|letters|, px, py))
        case None => unchanged(this)
        case Some(k) => Tapped(old(letters)[k])
      ensures old(state) == Complete ==>
        if InContinue(py) then
          level == old(level) + 1 && NewRound(ChosenWord(level, pick), js) &&
          score == old(score) && combo == old(combo) && particles == old(particles)
        else unchanged(this)
      ensures old(score) <= score && old(combo) <= combo <= old(combo) + 1
      ensures forall i :: 0 <= i < |letters| ==> letters[i] in old(letters) || fresh(letters[i])
    {
      if state == Menu {
        TapMenu(py, pick, js);
      } else if state == Playing {
        TapTiles(px, py);
      } else {
        TapComplete(py, pick, js);
      }
    }

    /** One tick: during a round the clock runs down by dt and the round
        ends, back to the menu, once it reaches zero; the tiles animate.
        On the menu and the overlay the clock stands still. */
    method Update(dt: real)
      requires Valid()
      modifies this`time, this`state, letters`x, letters`y
      ensures Valid()
      ensures old(state) == Playing ==>
        time == old(time) - dt && (state == Menu <==> time <= 0.0) && (state == Playing <==> time > 0.0)
      ensures old(state) != Playing ==> time == old(time) && state == old(state)
      ensures score == old(score) && level == old(level) && combo == old(combo)
      ensures letters == old(letters) && selectedLetters == old(selectedLetters)
      ensures forall i :: 0 <= i < |letters| ==>
        letters[i].x == old(letters[i].x) && letters[i].y == old(letters[i].y)
    {
      if state == Playing {
        time := time - dt;
        if time <= 0.0 {
          state := Menu;
        }
        var i := 0;
        while i < |letters|
          invariant 0 <= i <= |letters|
          invariant Valid()
          modifies letters`x, letters`y
          invariant forall k :: 0 <= k < |letters| ==>
            letters[k].x == old(letters[k].x) && letters[k].y == old(letters[k].y)
        {
          letters[i].Update();
          i := i + 1;
        }
      }
    }
  }
}
