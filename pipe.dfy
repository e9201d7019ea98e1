/**
 * One pipe obstacle: a top and a bottom shaft with a gap between them that
 * scrolls to the left (pipe.go).
 */
module Pipes {
  import opened Gophers

  /** Side of one tile of the tile sheet. */
  const TileSize: int := 32
  /** A pipe is two tiles wide. */
  const PipeWidth: int := TileSize * 2

  /** The value of a pipe's fields (the two images are left out). */
  datatype PipeState = PipeState(x: int, topY: int, speed: int, gap: int, passed: bool, scored: bool)
  {
    function Width(): int { PipeWidth }

    function PosX(): int { x }

    function PosTopY(): int { topY }

    function PosBotY(): int { topY + gap }

    function Move(): PipeState { this.(x := x - speed) }

    /** Box test against a gopher box of the given size. */
    predicate Collide(g: GopherState, gopherW: int, gopherH: int)
    {
      if PosX() > g.PosX() + gopherW then false        // not reached yet
      else if PosX() + Width() < g.PosX() then false   // already behind the gopher
      else g.PosY() < PosTopY() || g.PosY() + gopherH > PosBotY()
    }

    /** The latched test "the right edge is left of refX"; the new pipe and the answer. */
    function Passed(refX: int): (PipeState, bool)
    {
      if passed then (this, true)
      else if PosX() + Width() < refX then (this.(passed := true), true)
      else (this, false)
    }

    /** One point the first time the pipe is passed by the gopher at `gopherX`, none after. */
    function Score(gopherX: int): (PipeState, int)
    {
      if scored then (this, 0)
      else
        var (p, ok) := Passed(gopherX);
        if ok then (p.(passed := true, scored := true), 1) else (p, 0)
    }
  }

  /**
   * A new pipe at the right edge of the window. `draw` is the result of
   * `rand.Intn(windowH - gap - 2 * TileSize)`.
   */
  function NewPipe(windowW: int, windowH: int, gap: int, speed: int, draw: int): (p: PipeState)
    ensures p.PosX() == windowW && p.gap == gap && p.speed == speed
    ensures !p.passed && !p.scored
    ensures 0 <= draw < windowH - gap - 2 * TileSize ==>
              TileSize <= p.PosTopY() < windowH - gap - TileSize && p.PosBotY() <= windowH - TileSize
  {
    PipeState(windowW, draw + TileSize, speed, gap, false, false)
  }

  /** The gap between the shafts is always `gap` high; a move shifts `x` only. */
  lemma GapAndMove(p: PipeState)
    ensures p.PosBotY() - p.PosTopY() == p.gap
    ensures p.Move() == p.(x := p.x - p.speed)
  {
  }

  /** Point (c, r) lies both in the gopher's box and in one of the pipe's two shafts. */
  predicate SolidContact(p: PipeState, g: GopherState, gopherW: int, gopherH: int, c: int, r: int)
  {
    && p.PosX() <= c <= p.PosX() + p.Width()
    && g.PosX() <= c <= g.PosX() + gopherW
    && g.PosY() <= r <= g.PosY() + gopherH
    && (r < p.PosTopY() || r > p.PosBotY())
  }

  /**
   * `Collide` is exactly "the gopher's closed box meets a shaft": the two
   * early exits are the horizontal separations and the final test says the
   * box does not fit inside the gap.
   */
  lemma CollideIsContact(p: PipeState, g: GopherState, gopherW: int, gopherH: int)
    requires 0 <= gopherW && 0 <= gopherH
    ensures p.Collide(g, gopherW, gopherH) <==> exists c, r :: SolidContact(p, g, gopherW, gopherH, c, r)
  {
    if p.Collide(g, gopherW, gopherH) {
      var c := if p.PosX() < g.PosX() then g.PosX() else p.PosX();
      var r := if g.PosY() < p.PosTopY() then g.PosY() else g.PosY() + gopherH;
      assert SolidContact(p, g, gopherW, gopherH, c, r);
    }
  }

  /** The operations a pipe's owner can apply to it. */
  datatype PipeOp = MoveOp | PassedOp(refX: int) | ScoreOp(gopherX: int)

  function Apply(p: PipeState, op: PipeOp): PipeState
  {
    match op
    case MoveOp => p.Move()
    case PassedOp(refX) => p.Passed(refX).0
    case ScoreOp(gx) => p.Score(gx).0
  }

  /** The state after a whole sequence of operations. */
  function Run(p: PipeState, ops: seq<PipeOp>): PipeState
    decreases |ops|
  {
    if ops == [] then p else Run(Apply(p, ops[0]), ops[1..])
  }

  /** The sum of all `Score` results along the sequence. */
  function TotalScore(p: PipeState, ops: seq<PipeOp>): int
    decreases |ops|
  {
    if ops == [] then 0
    else (if ops[0].ScoreOp? then p.Score(ops[0].gopherX).1 else 0) + TotalScore(Apply(p, ops[0]), ops[1..])
  }

  /** Every `Passed` call along the sequence answers true. */
  predicate PassedAlwaysTrue(p: PipeState, ops: seq<PipeOp>)
    decreases |ops|
  {
    ops == [] || ((ops[0].PassedOp? ==> p.Passed(ops[0].refX).1) && PassedAlwaysTrue(Apply(p, ops[0]), ops[1..]))
  }

  /** Once `passed` is set, it is never reset and every later `Passed` call answers true. */
  lemma {:induction false} PassedLatches(p: PipeState, ops: seq<PipeOp>)
    requires p.passed
    ensures Run(p, ops).passed
    ensures PassedAlwaysTrue(p, ops)
    decreases |ops|
  {
    if ops != [] {
      PassedLatches(Apply(p, ops[0]), ops[1..]);
    }
  }

  /**
   * Over a pipe's whole lifetime the `Score` results add up to at most one,
   * and to nothing once `scored` is set; `scored` is never reset.
   */
  lemma {:induction false} ScoresAtMostOnce(p: PipeState, ops: seq<PipeOp>)
    ensures TotalScore(p, ops) <= if p.scored then 0 else 1
    ensures 0 <= TotalScore(p, ops)
    ensures p.scored ==> Run(p, ops).scored
    decreases |ops|
  {
    if ops != [] {
      ScoresAtMostOnce(Apply(p, ops[0]), ops[1..]);
    }
  }

  /** A pipe object; `topY`, `speed` and `gap` are never written after construction. */
  class Pipe {
    var x: int
    const topY: int
    const speed: int
    const gap: int
    var passed: bool
    var scored: bool

    constructor (windowW: int, windowH: int, gap: int, speed: int, draw: int)
      requires 0 <= draw < windowH - gap - 2 * TileSize
      ensures State() == NewPipe(windowW, windowH, gap, speed, draw)
    {
      x := windowW;
      topY := draw + TileSize;
      this.speed := speed;
      this.gap := gap;
      passed := false;
      scored := false;
    }

    function State(): PipeState
      reads this
    {
      PipeState(x, topY, speed, gap, passed, scored)
    }

    function PosX(): int
      reads this
    {
      x
    }

    function Width(): int { PipeWidth }

    predicate Collide(g: Gopher, gopherW: int, gopherH: int)
      reads this, g
    {
      State().Collide(g.State(), gopherW, gopherH)
    }

    method Move()
      modifies this
      ensures State() == old(State()).Move()
    {
      x := x - speed;
    }

    method Passed(refX: int) returns (b: bool)
      modifies this
      ensures (State(), b) == old(State()).Passed(refX)
    {
      if passed {
        return true;
      }
      if x + PipeWidth < refX {
        passed := true;
      }
      return passed;
    }

    method Score(g: Gopher) returns (n: int)
      modifies this
      ensures (State(), n) == old(State()).Score(g.State().PosX())
    {
      if scored {
        return 0;
      }
      var ok := Passed(g.State().PosX());
      if ok {
        passed := true;
        scored := true;
        return 1;
      }
      return 0;
    }
  }

  /** Every pipe of the list after one `Move`. */
  function MoveAllPipes(ps: seq<PipeState>): (r: seq<PipeState>)
  {
    seq(|ps|, i requires 0 <= i < |ps| => ps[i].Move())
  }

  /** The loop `for _, pipe := range pipes { pipe.Move() }`, front to back. */
  method MoveEachPipe(ps: seq<PipeState>) returns (r: seq<PipeState>)
    ensures r == MoveAllPipes(ps)
  {
    r := ps;
    for i := 0 to |ps|
      invariant |r| == |ps|
      invariant forall j :: 0 <= j < |ps| ==> r[j] == if j < i then ps[j].Move() else ps[j]
    {
      r := r[i := r[i].Move()];
    }
  }
}
