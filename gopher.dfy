/**
 * One gopher: a body that falls under gravity and jumps (game/gopher.go).
 *
 * The source keeps `y` and `speedY` in float64. Every value they take is a
 * multiple of 0.25 well inside float64's exact range, so they are modelled as
 * `real`. `x` is a float64 too and is never written after construction.
 */
module Gophers {
  import opened Common

  /** The speed a jump sets, whatever the speed was before. */
  const JumpSpeed: real := -6.0
  /** The speed gained per tick. */
  const Gravity: real := 0.25
  /** The largest downward speed. */
  const TerminalSpeed: real := 96.0

  function Min(a: real, b: real): real { if a <= b then a else b }

  /** Go's conversion `int(f)` of a float64: truncation toward zero. */
  function Trunc(r: real): (t: int)
    ensures 0.0 <= r ==> t as real <= r < t as real + 1.0
    ensures r < 0.0 ==> t as real - 1.0 < r <= t as real
  {
    if r >= 0.0 then r.Floor else -((-r).Floor)
  }

  /** The value of a gopher's fields. */
  datatype GopherState = GopherState(id: int, x: real, y: real, speedY: real)
  {
    function Jump(): GopherState { this.(speedY := JumpSpeed) }

    /** Position first, with the speed from before gravity; then gravity and the clamp. */
    function Move(): GopherState
    {
      var v := speedY + Gravity;
      this.(y := y + speedY, speedY := if v > TerminalSpeed then TerminalSpeed else v)
    }

    function PosX(): int { Trunc(x) }

    function PosY(): int { Trunc(y) }

    predicate OffScreenY(windowH: int, height: int)
    {
      PosY() < 0 || PosY() + height > windowH
    }
  }

  /** `n` successive ticks of `Move`. */
  function MoveN(g: GopherState, n: nat): GopherState
  {
    if n == 0 then g else MoveN(g, n - 1).Move()
  }

  /** A jump sets the speed to the impulse, forgets the old speed and touches nothing else. */
  lemma JumpOverridesSpeed(g: GopherState, v: real)
    ensures g.Jump().speedY == JumpSpeed
    ensures g.(speedY := v).Jump() == g.Jump()
    ensures g.Jump().id == g.id && g.Jump().x == g.x && g.Jump().y == g.y
  {
  }

  /** One tick: `y` advances by the speed from before gravity, the speed by gravity, up to the clamp. */
  lemma MoveIntegrates(g: GopherState)
    ensures g.Move().y == g.y + g.speedY
    ensures g.Move().speedY == Min(g.speedY + Gravity, TerminalSpeed)
    ensures g.Move().speedY <= TerminalSpeed
    ensures g.Move().id == g.id && g.Move().x == g.x
  {
  }

  /** The two worked examples: a tick from rest, and a jump followed by a tick. */
  lemma RestAndJumpScenario(g: GopherState)
    requires g.speedY == 0.0
    ensures g.Move().y == g.y && g.Move().speedY == 0.25
    ensures g.Jump().Move().y == g.y - 6.0 && g.Jump().Move().speedY == -5.75
  {
  }

  /** After `n` ticks the speed has grown by `n` times gravity, up to the terminal speed. */
  lemma {:induction false} SpeedAfterMoves(g: GopherState, n: nat)
    requires g.speedY <= TerminalSpeed
    ensures MoveN(g, n).speedY == Min(g.speedY + Gravity * n as real, TerminalSpeed)
    ensures MoveN(g, n).id == g.id && MoveN(g, n).x == g.x
  {
    if n > 0 {
      SpeedAfterMoves(g, n - 1);
    }
  }

  /** Until the clamp is reached, the fall is the discrete parabola of constant gravity. */
  lemma {:induction false} FreeFall(g: GopherState, n: nat)
    requires g.speedY + Gravity * n as real <= TerminalSpeed
    ensures MoveN(g, n).speedY == g.speedY + Gravity * n as real
    ensures MoveN(g, n).y == g.y + n as real * g.speedY + Gravity * (n as real) * ((n - 1) as real) / 2.0
  {
    if n > 0 {
      FreeFall(g, n - 1);
      var m := (n - 1) as real;
      assert m * (m - 1.0) / 2.0 + m == (m + 1.0) * m / 2.0;
    }
  }

  /**
   * The truncated bounds test in terms of the real position: a gopher slightly
   * above the top edge (-1 < y < 0) still counts as on screen.
   */
  lemma OffScreenYExact(g: GopherState, windowH: int, height: int)
    requires height <= windowH
    ensures g.OffScreenY(windowH, height) <==> g.y <= -1.0 || g.y >= (windowH - height + 1) as real
  {
  }

  /** A gopher object; `ID` and `x` are never written after construction. */
  class Gopher {
    const ID: int
    const x: real
    var y: real
    var speedY: real

    constructor (id: int, x: real, y: real)
      ensures State() == GopherState(id, x, y, 0.0)
    {
      ID := id;
      this.x := x;
      this.y := y;
      speedY := 0.0;
    }

    function State(): GopherState
      reads this
    {
      GopherState(ID, x, y, speedY)
    }

    function PosX(): int
      reads this
    {
      State().PosX()
    }

    predicate OffScreenY(windowH: int, height: int)
      reads this
    {
      State().OffScreenY(windowH, height)
    }

    method Jump()
      modifies this
      ensures State() == old(State()).Jump()
    {
      speedY := JumpSpeed;
    }

    method Move()
      modifies this
      ensures State() == old(State()).Move()
    {
      y := y + speedY;
      speedY := speedY + Gravity;
      if speedY > TerminalSpeed {
        speedY := TerminalSpeed;
      }
    }
  }

  /** Every gopher of a population is stored under its own ID. */
  predicate KeyedByID(gs: map<int, GopherState>)
  {
    forall k :: k in gs ==> gs[k].id == k
  }

  /** Every gopher of the population after one `Move`. */
  function MoveAll(gs: map<int, GopherState>): map<int, GopherState>
  {
    map k | k in gs :: gs[k].Move()
  }

  /** Every gopher of the population after one `Jump`. */
  function JumpAll(gs: map<int, GopherState>): map<int, GopherState>
  {
    map k | k in gs :: gs[k].Jump()
  }

  /** The loop `for _, gopher := range gophers { gopher.Move() }`, in whatever order the keys come. */
  method MoveEach(gs: map<int, GopherState>) returns (r: map<int, GopherState>)
    ensures r == MoveAll(gs)
  {
    r := gs;
    var todo := gs.Keys;
    while todo != {}
      invariant todo <= gs.Keys
      invariant r.Keys == gs.Keys
      invariant forall k :: k in gs ==> r[k] == if k in todo then gs[k] else gs[k].Move()
      decreases todo
    {
      NonEmptyHasElement(todo);
      var id :| id in todo;
      r := r[id := r[id].Move()];
      todo := todo - {id};
    }
    assert forall k :: k in r ==> r[k] == MoveAll(gs)[k];
  }

  /** The loop `for _, gopher := range gophers { gopher.Jump() }`. */
  method JumpEach(gs: map<int, GopherState>) returns (r: map<int, GopherState>)
    ensures r == JumpAll(gs)
  {
    r := gs;
    var todo := gs.Keys;
    while todo != {}
      invariant todo <= gs.Keys
      invariant r.Keys == gs.Keys
      invariant forall k :: k in gs ==> r[k] == if k in todo then gs[k] else gs[k].Jump()
      decreases todo
    {
      NonEmptyHasElement(todo);
      var id :| id in todo;
      r := r[id := r[id].Jump()];
      todo := todo - {id};
    }
    assert forall k :: k in r ==> r[k] == JumpAll(gs)[k];
  }
}
