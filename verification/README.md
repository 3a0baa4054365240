# Word Explorer Adventure — a verified model of the game controller

This project models the controller of the Word Explorer Adventure canvas
game (`script.js`, class `Game`). It is a state machine with three screens:
the menu, a round in progress, and the completion overlay. A round does the
following:

- It picks a target word from one of four difficulty tiers, chosen by the level.
- It shuffles the word's characters with a descending Fisher–Yates loop.
- It lays out one letter tile per character on a row of the canvas.
- The player taps tiles to build an ordered selection. Tapping a selected tile removes it again.
- When the concatenated selection spells the target word, the round is won.
  - The score grows by `100 * (combo + 1)` and the combo by one.
  - The completion overlay appears. Its Continue button raises the level and starts the next round.
- A countdown of 180 seconds runs during a round. When it reaches zero, the game returns to the menu.

The modules follow the parts of the controller:

- `Geometry`:
  - the logical 1200 x 800 canvas and the tile row;
  - the ±35 tile hit box, and the proof that no tap hits two tiles;
  - the three menu buttons and their ±30 bands;
  - the Continue band of the overlay.
- `WordBank`: the word table, the tier of a level and the chosen word.
- `Shuffle`: the Fisher–Yates loop. It runs on an array in place and is proved equal to a recursive specification, which is proved to permute.
- `Selection`: the ordered selection sequence and its toggle (append or filter out), with order and no-duplicate lemmas.
- `Entities`: the `Letter` tile class (position, selection flag, animation tick, hit test) and particles.
- `WordGame`: the `Game` class. Its fields are updated in place by `StartGame`, `CheckWord`, `CreateParticles`, the tap handler and the tick `Update`.
  - Its invariant `Valid()` says:
    - the level is at least 1, and score and combo are not negative;
    - the tiles spell a permutation of the target word;
    - tile i has index i and rests in slot i of the row;
    - the selection has no duplicates, holds only tiles of the row, and holds exactly the tiles whose flag is set.
  - `Tapped(l)` states the whole effect of one tile tap.
  - `Win` is the score and combo step of a completed word. `CheckWord` and `Tapped` state the match case through it, and `WinsStreak` sums k such steps.

Random numbers are parameters:

- `pick` is the index of the word within its tier.
- `js[i]` is the Fisher–Yates draw at position `i`, with `js[i] <= i`.

Tap coordinates, time and tile positions are `real`s.

Tile `i` of a row of `n` tiles is centred at x = 600 − 40n + 80i, y = 650. The centres are therefore symmetric about x = 560, not about the canvas centre (`Geometry.RowMidpoint`). The model keeps this as written.

## Model

| member | source | states |
|---|---|---|
| WordBank.TierIndex | script.js:175 | the tier is floor(level / 5) clamped to the last tier: a valid index into the four-tier table, at most level / 5, and exactly level / 5 below the last tier |
| WordBank.TierMonotone | script.js:175 | a higher level never has an easier tier, and one level up moves at most one tier |
| WordBank.ChosenWord | script.js:175-177 | the word for a valid pick is an entry of the level's tier, 3 to 8 letters, all capitals |
| WordBank.WordFacts | script.js:168-173 | every word in the table is 3 to 8 capital letters; no word of a later tier is shorter than a word of an earlier one |
| Shuffle.FisherYates | script.js:181-184 | the recursive specification of the descending loop from position i (swap i with js[i], continue at i − 1, stop at 0); the result has the word's length |
| Shuffle.FisherYatesPermutes | script.js:180-184 | with every draw j in [0, i], the shuffle keeps the multiset of characters: the tiles spell a permutation of the word |
| Shuffle.FisherYatesKeepsAbove | script.js:181-184 | once the loop has passed position k, no later swap changes it |
| Shuffle.IdentityDraws | script.js:181-184 | draws j = i at every step leave the word unchanged |
| Shuffle.ShuffledChars | script.js:180-184 | the in-place array loop yields exactly the recursive Fisher–Yates result for the same draws: same length, same multiset |
| Geometry.SlotsDisjoint | script.js:100-104 | tiles 80 apart with a strict ±35 hit box: a tap that hits two slots hits one slot |
| Geometry.HitTile | script.js:221-222 | a tap hits slot i exactly when HitTile names i, so at most one tile is hit |
| Geometry.RowMidpoint | script.js:186-188 | neighbouring tiles are 80 apart, and the first and last centres add up to 1120 |
| Geometry.ButtonAt | script.js:213-219 | a button fires exactly when the tap lies strictly within 30 of its centre (450, 530, 610), so at most one action fires |
| Selection.Without | script.js:231 | filtering removes every occurrence of the tile and keeps every other element with its count |
| Selection.InWithout | script.js:231 | an element is in the filtered selection iff it was selected and is not the tapped tile |
| Selection.Toggled | script.js:223-231 | after a tap the tile is selected iff it was not, and no other tile's membership changes |
| Selection.WithoutAt | script.js:231 | deselecting cuts the tile out at its position and keeps the relative order of the others |
| Selection.WithoutNoDup | script.js:231 | filtering keeps the selection free of duplicates |
| Selection.ToggledNoDup | script.js:223-231 | a tap keeps the selection free of duplicates |
| Selection.SelectThenDeselect | script.js:223-231 | selecting a tile and then deselecting it restores the previous selection sequence |
| Selection.DeselectLastThenSelect | script.js:223-231 | deselecting the last-selected tile and selecting it again restores the sequence |
| Selection.CoversAll | script.js:249-250 | a duplicate-free selection drawn from the tiles, at least as long as the row, contains every tile |
| Entities.Letter.constructor | script.js:41-51 | a new tile carries its character and index, is unselected, and its target equals its spawn position |
| Entities.Letter.Update | script.js:53-55 | each tick closes 15% of the distance to the target on both axes, so a tile at its target never moves |
| Entities.ContainsInRow | script.js:100-104 | in a laid-out row, tile i contains a tap exactly when HitTile names slot i, so at most one tile of the row contains any tap |
| Entities.Chars | script.js:249 | the joined characters of a tile sequence: exactly one character per tile |
| Entities.CharsAppend | script.js:249 | the join follows the tile order: appending a tile appends its character |
| Entities.Burst | script.js:259-264 | a burst is exactly `count` particles, all from the given origin |
| WordGame.LayOut | script.js:186-189 | one fresh, unselected tile per character, in order; tile i has index i and rests at slot i of the row at y = 650 |
| WordGame.MatchSelectsEveryTile | script.js:249-250 | a selection spells the target word only once every tile of the row is selected |
| WordGame.Win | script.js:251-252 | from a non-negative combo, a completed word always raises both the score and the combo; nothing resets them |
| WordGame.WinsStreak | script.js:251-252 | k successive completed words from score s and combo c, each applying the step `CheckWord` takes on a match, give score s + StreakPoints(c, k) and combo c + k: the combo is never reset between them |
| WordGame.StreakPointsSum | script.js:251 | the awards at k consecutive combos from c, 100(c+1) + … + 100(c+k), equal 50·k·(2c + k + 1) |
| WordGame.WinsFromStart | script.js:117 | starting from combo 0, as a newly constructed game does (a new round never resets the combo), k completed words add 50k(k+1) to the score and leave combo k |
| WordGame.Game.constructor | script.js:114-124 | the game starts on the menu, score 0, level 1, combo 0, 180 seconds, with no tiles, selection or particles |
| WordGame.Game.StartGame | script.js:162-190 | the new round is playing with 180 seconds and an empty selection. The target is the chosen word of the level's tier. The tiles are fresh and unselected and spell the Fisher–Yates shuffle of the word. Score, combo and level are unchanged, and the invariant holds |
| WordGame.Game.SetUpRound | script.js:163-189 | the round set-up for a given word: clock, selection, target, shuffled tiles; the invariant is established |
| WordGame.Game.CreateParticles | script.js:259-264 | exactly `count` particles from (x, y) are appended; the earlier ones are kept |
| WordGame.Game.CheckWord | script.js:248-257 | on an exact match: one `Win` step (score + 100 * (combo + 1), combo + 1), the 50-particle burst at (600, 300), the complete screen, and every tile selected. Otherwise nothing changes |
| WordGame.Game.TapLetter | script.js:222-234 | the tile's flag flips and the selection is toggled. A selection also bursts 10 particles at the tile and checks the word. A deselection changes nothing else. The invariant holds |
| WordGame.Game.TapTiles | script.js:220-235 | a tap in a round toggles the one tile whose hit box holds it, with the full effect of TapLetter; a tap on no tile changes nothing |
| WordGame.Game.TapMenu | script.js:213-219 | Play Game and Daily Challenge start a round at the same level; Achievements and taps outside the buttons change nothing |
| WordGame.Game.TapComplete | script.js:236-241 | a tap strictly between y = 480 and y = 540 raises the level by exactly one and starts the next round; any other tap changes nothing |
| WordGame.Game.HandleClick | script.js:209-242 | the tap handler's per-screen outcome: a menu or Continue tap that starts a round states the new round and keeps score, combo and particles; a tap in a round has the effect of `Tapped` on the one tile hit; any other tap changes nothing. In every case score never decreases, and the combo never decreases and rises by at most one |
| WordGame.Game.Update | script.js:281-287 | in a round, time drops by dt and the game returns to the menu exactly when time <= 0. On the other screens the clock and screen stand still. Score, level, combo, tiles and selection never change, and resting tiles stay put |

## Left out

- Drawing: the particle, tile, menu, game, score-box and overlay drawing, and the `roundRect` polyfill. They are presentation and change no state.
- `playSound`: it is an audio side effect whose errors are swallowed, and it changes no game state.
- `showAchievements`: it shows a dialog and changes no game state. The model's Achievements button therefore leaves the state unchanged.
- DOM and timer glue: canvas set-up, the `getPos` rescaling of pointer coordinates, listener registration, `animate` with its clamp of dt to 0.1 s, and the simulated loading screen. Taps arrive in canvas coordinates, and `dt` is a parameter.
- `Math.random`: replaced by the parameters `pick` and `js`, whose bounds are preconditions.
- The starfield and `foundWords`: random decoration and an unused field.
- Entities.Burst: a particle keeps only its origin. Velocity, colour, size, gravity and life decay are random floating-point animation.
- WordGame.Game.Update: the tick's particle update and the removal of dead particles are not modelled. The model's particle list only grows.
- Entities.Letter.Update: the scale easing toward 1.1 or 1 is not modelled.
- WordGame.Game.Update: the round's tiles always rest at their targets, so the animation loop is proved to leave them in place.
- Floating point is modelled as exact reals.
- WordGame.Game.TapMenu: the button loop is modelled as a lookup of the one band that holds the tap, which `Geometry.ButtonAt` justifies. The bands are disjoint, so the loop fires at most one action.
- WordGame.Game.SetUpRound: this is the part of `startGame` after the word is chosen, split out so that the word can be given as a parameter. It is not a separate operation of the game.
- On timeout `update` keeps the tiles, the selection and the target word; the next `startGame` replaces them.
