/** The scrolling ground (base.go): one row of tiles drawn with a horizontal offset. */
module Bases {
  import opened Pipes

  /** The value of a base's fields (the tile image is left out). */
  datatype BaseState = BaseState(y: int, speed: int, delta: int)
  {
    /** The tile is the 32 by 32 corner of the tile sheet. */
    function TileWidth(): int { TileSize }

    function Move(): BaseState
    {
      var d := delta + speed;
      this.(delta := if d >= TileWidth() then d - TileWidth() else d)
    }
  }

  /** A base resting on the bottom edge of a window `windowH` high. */
  function NewBase(windowH: int, speed: int): (b: BaseState)
    ensures b.delta == 0 && b.speed == speed
    ensures b.y + b.TileWidth() == windowH
  {
    BaseState(windowH - TileSize, speed, 0)
  }

  /** `n` successive ticks of `Move`. */
  function MoveN(b: BaseState, n: nat): BaseState
  {
    if n == 0 then b else MoveN(b, n - 1).Move()
  }

  /** A move keeps the offset within one tile, shifts it by the speed modulo the tile width, and touches nothing else. */
  lemma MoveWraps(b: BaseState)
    requires 0 <= b.delta < b.TileWidth() && 0 <= b.speed <= b.TileWidth()
    ensures 0 <= b.Move().delta < b.TileWidth()
    ensures b.Move().delta == (b.delta + b.speed) % b.TileWidth()
    ensures b.Move().y == b.y && b.Move().speed == b.speed
  {
  }

  /** Without any range assumption the new offset is still congruent to the old one plus the speed. */
  lemma MoveIsCongruent(b: BaseState)
    ensures (b.Move().delta - (b.delta + b.speed)) % b.TileWidth() == 0
  {
  }

  /** After `n` ticks from a valid offset the offset is the distance scrolled, modulo the tile width. */
  lemma {:induction false} ScrollAfterMoves(b: BaseState, n: nat)
    requires 0 <= b.delta < b.TileWidth() && 0 <= b.speed <= b.TileWidth()
    ensures MoveN(b, n).delta == (b.delta + n * b.speed) % b.TileWidth()
    ensures MoveN(b, n).y == b.y && MoveN(b, n).speed == b.speed
  {
    if n > 0 {
      ScrollAfterMoves(b, n - 1);
      var prev := MoveN(b, n - 1);
      MoveWraps(prev);
      ModAdd(b.delta + (n - 1) * b.speed, b.speed);
      assert b.delta + (n - 1) * b.speed + b.speed == b.delta + n * b.speed;
    }
  }

  lemma ModAdd(a: int, s: int)
    ensures (a % TileSize + s) % TileSize == (a + s) % TileSize
  {
  }

  /** A base object; `y` and `speed` are never written after construction. */
  class Base {
    const y: int
    const speed: int
    var delta: int

    constructor (windowH: int, speed: int)
      ensures State() == NewBase(windowH, speed)
    {
      y := windowH - TileSize;
      this.speed := speed;
      delta := 0;
    }

    function State(): BaseState
      reads this
    {
      BaseState(y, speed, delta)
    }

    function TileWidth(): int { TileSize }

    method Move()
      modifies this
      ensures State() == old(State()).Move()
    {
      delta := delta + speed;
      if delta >= TileWidth() {
        delta := delta - TileWidth();
      }
    }
  }
}
