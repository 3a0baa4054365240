/** The game's entities: the letter tile, an object whose selection flag
    and position the game updates in place, and the particle of a burst. */
module Entities {
  import opened Geometry

  /** Interpolation factor of the tile animation: each tick closes 15% of
      the remaining distance to the target. */
  const Easing: real := 0.15

  class Letter {
    const ch: char
    var x: real
    var y: real
    const targetX: real
    const targetY: real
    /** Position of the tile in the shuffled row. */
    const index: nat
    var selected: bool

    constructor (c: char, x0: real, y0: real, i: nat)
      ensures ch == c && index == i && !selected
      ensures x == x0 && y == y0 && targetX == x0 && targetY == y0
    {
      ch, index, selected := c, i, false;
      x, y := x0, y0;
      targetX, targetY := x0, y0;
    }

    /** The tile stands on its target. */
    predicate AtRest()
      reads this
    {
      x == targetX && y == targetY
    }

    /** The tile stands, at rest, in slot `index` of a row of `n` tiles. */
    predicate InSlot(n: nat)
      reads this
    {
      x == TileX(n, index) as real && y == TileRowY as real && AtRest()
    }

    /** One animation tick of the position: the distance to the target
        shrinks to 85% on each axis, so a tile at rest never moves. */
    method Update()
      modifies this`x, this`y
      ensures x == old(x) + (targetX - old(x)) * Easing
      ensures y == old(y) + (targetY - old(y)) * Easing
      ensures Abs(targetX - x) == 0.85 * Abs(targetX - old(x))
      ensures Abs(targetY - y) == 0.85 * Abs(targetY - old(y))
      ensures old(AtRest()) ==> AtRest() && x == old(x) && y == old(y)
    {
      x := x + (targetX - x) * Easing;
      y := y + (targetY - y) * Easing;
    }

    /** The hit test: strictly within 35 of the current position on both axes. */
    predicate Contains(px: real, py: real)
      reads this
    {
      InHitBox(x, y, px, py)
    }
  }

  /** In a laid-out row, where tile i rests in slot i, a tap is contained
      by tile i exactly when HitTile names slot i: at most one tile of the
      row contains any tap. */
  lemma ContainsInRow(ls: seq<Letter>, px: real, py: real)
    requires forall i :: 0 <= i < |ls| ==> ls[i].index == i && ls[i].InSlot(|ls|)
    ensures forall i :: 0 <= i < |ls| ==> (ls[i].Contains(px, py) <==> HitTile(|ls|, px, py) == Some(i))
  {
  }

  /** A particle of a burst. Only its origin is kept: velocity, colour, size
      and life are random or floating-point animation. */
  datatype Particle = Particle(x: real, y: real)

  /** `count` particles at (x, y). */
  function Burst(x: real, y: real, count: nat): (b: seq<Particle>)
    ensures |b| == count && forall p :: p in b ==> p == Particle(x, y)
  {
    seq(count, _ => Particle(x, y))
  }

  /** The characters of a sequence of tiles, concatenated in order. */
  function Chars(ls: seq<Letter>): (s: string)
    ensures |s| == |ls|
  {
    seq(|ls|, i requires 0 <= i < |ls| => ls[i].ch)
  }

  /** Appending a tile appends its character. */
  lemma CharsAppend(ls: seq<Letter>, l: Letter)
    ensures Chars(ls + [l]) == Chars(ls) + [l.ch]
  {
  }
}
