/** Fixed canvas geometry of the game: the tile row, the tile hit box, the
    three menu buttons and the Continue button of the completion overlay.
    All coordinates are in the logical 1200 x 800 canvas. */
module Geometry {

  datatype Option<T> = None | Some(value: T)

  const Width: int := 1200
  const Height: int := 800

  /** Distance between the centres of neighbouring tiles. */
  const TileSpacing: int := 80
  /** Half the side of a tile's square hit box. */
  const HitHalf: real := 35.0
  /** Every tile of a level is laid out on this row. */
  const TileRowY: int := Height - 150

  function Abs(v: real): real
  {
    if v < 0.0 then -v else v
  }

  /** The hit test of a tile centred at (cx, cy): strictly inside the box. */
  predicate InHitBox(cx: real, cy: real, px: real, py: real)
  {
    Abs(px - cx) < HitHalf && Abs(py - cy) < HitHalf
  }

  /** Centre x of tile `i` among `n`: startX + i * 80, startX = Width/2 - n*80/2 (80 is even). */
  function TileX(n: nat, i: nat): int
  {
    Width / 2 - n * (TileSpacing / 2) + i * TileSpacing
  }

  /** Whether a tap at (px, py) lands on slot `i` of a row of `n` tiles. */
  predicate HitsSlot(n: nat, i: nat, px: real, py: real)
  {
    InHitBox(TileX(n, i) as real, TileRowY as real, px, py)
  }

  /** Neighbouring slots are 80 apart and the hit boxes are 70 wide, so no
      tap lands on two slots. */
  lemma SlotsDisjoint(n: nat, i: nat, j: nat, px: real, py: real)
    requires HitsSlot(n, i, px, py) && HitsSlot(n, j, px, py)
    ensures i == j
  {
    assert (TileX(n, i) - TileX(n, j)) as real == (80 * (i - j)) as real;
  }

  /** The first slot in [from, n) that the tap hits, if any. */
  function FirstHit(n: nat, from: nat, px: real, py: real): (r: Option<nat>)
    requires from <= n
    ensures r.Some? ==> from <= r.value < n && HitsSlot(n, r.value, px, py)
    ensures r.None? ==> forall i :: from <= i < n ==> !HitsSlot(n, i, px, py)
    decreases n - from
  {
    if from == n then None
    else if HitsSlot(n, from, px, py) then Some(from)
    else FirstHit(n, from + 1, px, py)
  }

  /** The tile a tap at (px, py) lands on, in a row of `n` tiles. */
  function HitTile(n: nat, px: real, py: real): (r: Option<nat>)
    ensures forall i :: 0 <= i < n ==> (HitsSlot(n, i, px, py) <==> r == Some(i))
    ensures r.Some? ==> r.value < n
  {
    var r := FirstHit(n, 0, px, py);
    if r.Some? then
      forall i | 0 <= i < n && HitsSlot(n, i, px, py) ensures i == r.value {
        SlotsDisjoint(n, i, r.value, px, py);
      }
      r
    else r
  }

  /** The centre of the row sits 40 units left of the canvas centre: the
      first and last tile centres straddle Width/2 - TileSpacing/2. */
  lemma RowMidpoint(n: nat)
    requires n >= 1
    ensures TileX(n, 0) + TileX(n, n - 1) == Width - TileSpacing
    ensures forall i :: 0 <= i < n - 1 ==> TileX(n, i + 1) - TileX(n, i) == TileSpacing
  {
  }

  // ----- Menu -----

  datatype Action = PlayGame | DailyChallenge | Achievements

  datatype Button = Button(text: string, centreY: int, action: Action)

  /** The three menu buttons, centred at Height/2 + 50 and 80 apart. */
  const MenuButtons: seq<Button> := [
    Button("Play Game", Height / 2 + 50, PlayGame),
    Button("Daily Challenge", Height / 2 + 50 + 80, DailyChallenge),
    Button("Achievements", Height / 2 + 50 + 160, Achievements)
  ]

  /** A button fires when the tap is strictly within 30 of its centre. */
  predicate InBand(centre: int, y: real)
  {
    y > (centre - 30) as real && y < (centre + 30) as real
  }

  /** The first button in bs whose band contains y. */
  function FirstButton(bs: seq<Button>, y: real): (r: Option<Action>)
    ensures r.Some? ==> exists b :: b in bs && InBand(b.centreY, y) && b.action == r.value
    ensures r.None? ==> forall b :: b in bs ==> !InBand(b.centreY, y)
  {
    if bs == [] then None
    else if InBand(bs[0].centreY, y) then Some(bs[0].action)
    else FirstButton(bs[1..], y)
  }

  /** The action a menu tap at height y fires. The bands are disjoint, so
      every button whose band holds y has this action: at most one fires. */
  function ButtonAt(y: real): (r: Option<Action>)
    ensures forall k :: 0 <= k < |MenuButtons| ==>
      (InBand(MenuButtons[k].centreY, y) <==> r == Some(MenuButtons[k].action))
  {
    FirstButton(MenuButtons, y)
  }

  /** The Continue button of the completion overlay: strictly between
      Height/2 + 80 and Height/2 + 140. */
  predicate InContinue(y: real)
  {
    y > (Height / 2 + 80) as real && y < (Height / 2 + 140) as real
  }
}
