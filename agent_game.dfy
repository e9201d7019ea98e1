/**
 * The agent-population engine of game/game.go as an object whose methods
 * update its fields in place. The gophers, the pipes and the base are held
 * here as values (GopherState, PipeState, BaseState) that the methods
 * replace; the source shares each pipe object between `pipes` and
 * `pipesAhead`, and the model writes every change of a shared pipe to both
 * lists. `Abs` gives the value of the engine, and every method is proved to
 * move that value as the functions of AgentSpec say.
 */
module AgentGame {
  import opened Common
  import opened Gophers
  import opened Pipes
  import opened Bases
  import opened Spawning
  import opened Collisions
  import A = AgentSpec

  /**
   * The loop of `restart` that creates the gophers `0 .. gopherN - 1`,
   * gopher `i` at the height given by `draws[i]`.
   */
  method NewPopulation(cfg: A.Config, gopherN: int, draws: seq<int>) returns (gs: map<int, GopherState>)
    requires |draws| == if gopherN < 0 then 0 else gopherN
    ensures gs == A.StartGophers(cfg, draws)
  {
    gs := map[];
    var i := 0;
    while i < gopherN
      invariant 0 <= i <= |draws|
      invariant gs == A.StartGophers(cfg, draws[..i])
    {
      ghost var next := A.StartGophers(cfg, draws[..i + 1]);
      gs := gs[i := GopherState(i, A.StartX, A.StartY(cfg, draws[i]), 0.0)];
      assert gs.Keys == next.Keys;
      i := i + 1;
    }
    assert draws[..i] == draws;
  }

  class Game {
    var mode: A.GameMode
    var stepID: int
    var score: int
    var dynamicSPU: bool
    var stepsPerUpdate: int
    var resetsNum: int

    const windowW: int
    const windowH: int
    /** Bounds of the gopher image. */
    const gopherW: int
    const gopherH: int

    var gophers: map<int, GopherState>
    var gophersX: int
    var speed: int

    var pipes: seq<PipeState>
    var pipesAhead: seq<PipeState>
    var spawnDelay: int
    var gapY: int
    var spawnTimer: int

    var base: BaseState

    function Cfg(): A.Config
    {
      A.Config(windowW, windowH, gopherW, gopherH)
    }

    /** The value of the engine. */
    function Abs(): A.State
      reads this
    {
      A.State(Cfg(), mode, stepID, score, dynamicSPU, stepsPerUpdate, resetsNum,
              gophers, gophersX, speed, pipes, |pipesAhead|,
              spawnDelay, gapY, spawnTimer, base)
    }

    /** `pipesAhead` is a tail of `pipes`: in the source both lists hold the same pipe objects. */
    predicate AheadIsSuffix()
      reads this`pipes, this`pipesAhead
    {
      |pipesAhead| <= |pipes| && pipesAhead == pipes[|pipes| - |pipesAhead|..]
    }

    ghost predicate Valid()
      reads this
    {
      AheadIsSuffix() && A.Inv(Abs())
    }

    /** `NewGame(windowW, windowH, gopherN)`: a zero-valued engine, then `restart`. */
    constructor (windowW: int, windowH: int, gopherW: int, gopherH: int, gopherN: int, draws: seq<int>)
      requires |draws| == if gopherN < 0 then 0 else gopherN
      requires A.WindowFits(A.Config(windowW, windowH, gopherW, gopherH))
      requires A.StartDraws(A.Config(windowW, windowH, gopherW, gopherH), draws)
      ensures Valid()
      ensures Abs() == A.Restart(A.Config(windowW, windowH, gopherW, gopherH), 0, gopherN, draws)
    {
      this.windowW := windowW;
      this.windowH := windowH;
      this.gopherW := gopherW;
      this.gopherH := gopherH;
      resetsNum := 0;
      new;
      Restart(gopherN, draws);
    }

    /**
     * `restart(gopherN)`, with `draws[i]` the `rand.Intn(windowH / 2)` of
     * gopher `i`: ids `0 .. gopherN - 1`, and every counter, list and
     * parameter back to its starting value.
     */
    method Restart(gopherN: int, draws: seq<int>)
      requires |draws| == if gopherN < 0 then 0 else gopherN
      requires A.WindowFits(Cfg()) && A.StartDraws(Cfg(), draws)
      modifies this
      ensures Valid()
      ensures Abs() == A.Restart(Cfg(), old(resetsNum), gopherN, draws)
    {
      ResetWorld();
      gophers := NewPopulation(Cfg(), gopherN, draws);
      resetsNum := resetsNum + 1;
      A.RestartFacts(Cfg(), old(resetsNum), gopherN, draws);
    }

    /** The part of `restart` that does not depend on the population: counters, pipes, speed, base. */
    method ResetWorld()
      modifies this`dynamicSPU, this`mode, this`stepID, this`spawnTimer, this`score, this`stepsPerUpdate
      modifies this`spawnDelay, this`gapY, this`pipes, this`pipesAhead, this`speed, this`base, this`gophersX
      ensures !dynamicSPU && mode == A.ModePlay && stepID == 0 && spawnTimer == 0 && score == 0
      ensures stepsPerUpdate == 1 && spawnDelay == A.StartSpawnDelay && gapY == A.StartGapY
      ensures pipes == [] && pipesAhead == [] && speed == A.StartSpeed && gophersX == A.StartGophersX
      ensures base == NewBase(windowH, A.StartSpeed)
    {
      dynamicSPU := false;
      mode := A.ModePlay;
      gophersX := A.StartGophersX;
      stepID := 0;
      spawnTimer := 0;
      score := 0;
      stepsPerUpdate := 1;
      spawnDelay := A.StartSpawnDelay;
      gapY := A.StartGapY;
      pipes := [];
      pipesAhead := [];
      speed := A.StartSpeed;
      base := NewBase(windowH, speed);
    }

    /** `GameOver`: only the mode change (closing the done channel is left out). */
    method GameOver()
      modifies this`mode
      ensures Abs() == A.GameOver(old(Abs()))
    {
      mode := A.ModeGameOver;
    }

    function Score(): int
      reads this
    {
      score
    }

    /**
     * The `select` on the input channel: every id of a pending batch that is
     * in the map and mapped to true makes its gopher jump.
     */
    method HandleInput(input: Option<map<int, bool>>)
      requires KeyedByID(gophers)
      modifies this`gophers
      ensures KeyedByID(gophers)
      ensures gophers == A.JumpRequested(old(gophers), input)
    {
      ghost var before := gophers;
      if input.Some? {
        var inp := input.value;
        var todo := inp.Keys;
        while todo != {}
          invariant todo <= inp.Keys
          invariant gophers.Keys == before.Keys
          invariant forall k :: k in before ==>
                      gophers[k] == if A.Requested(input, k) && k !in todo then before[k].Jump() else before[k]
          decreases todo
        {
          NonEmptyHasElement(todo);
          var id :| id in todo;
          var jump := inp[id];
          if id in gophers && jump {
            gophers := gophers[id := gophers[id].Jump()];
          }
          todo := todo - {id};
        }
      }
      assert forall k :: k in gophers ==> gophers[k] == A.JumpRequested(before, input)[k];
    }

    /** The loop `for _, gopher := range g.gophers { gopher.Move() }`. */
    method MoveGophers()
      requires KeyedByID(gophers)
      modifies this`gophers
      ensures KeyedByID(gophers)
      ensures gophers == MoveAll(old(gophers))
    {
      gophers := MoveEach(gophers);
    }

    /** Remove the head of `pipes` when its right edge is left of the window. */
    method DropHead()
      requires AheadIsSuffix()
      requires A.HeadOffScreen(Abs()) ==> |pipesAhead| < |pipes|
      modifies this`pipes
      ensures AheadIsSuffix()
      ensures Abs() == A.DropHead(old(Abs()))
    {
      if |pipes| > 0 && pipes[0].PosX() + pipes[0].Width() < 0 {
        pipes := pipes[1..];
      }
    }

    /**
     * The loop `for _, pipe := range g.pipes { pipe.Move() }`. A pipe of the
     * tail of `pipes` is also in `pipesAhead`, and moves there too.
     */
    method MovePipes()
      requires AheadIsSuffix()
      modifies this`pipes, this`pipesAhead
      ensures AheadIsSuffix()
      ensures Abs() == A.MovePipes(old(Abs()))
    {
      ghost var before := pipes;
      var h := |pipes| - |pipesAhead|;
      for i := 0 to |pipes|
        invariant |pipes| == |before| && |pipesAhead| == |before| - h
        invariant forall j :: 0 <= j < |pipes| ==> pipes[j] == if j < i then before[j].Move() else before[j]
        invariant pipesAhead == pipes[h..]
      {
        pipes := pipes[i := pipes[i].Move()];
        if h <= i {
          pipesAhead := pipesAhead[i - h := pipesAhead[i - h].Move()];
        }
      }
      assert pipes == MoveAllPipes(before);
    }

    /** `SpawnPipe`, with the `rand.Intn` result of `NewPipe` as `draw`. */
    method SpawnPipe(draw: int)
      requires AheadIsSuffix()
      modifies this`pipes, this`pipesAhead, this`spawnTimer
      ensures AheadIsSuffix()
      ensures Abs() == A.SpawnPipe(old(Abs()), draw)
    {
      if spawnTimer <= 0 {
        spawnTimer := spawnDelay;
        var newPipe := NewPipe(windowW, windowH, gapY, speed, draw);
        pipes := pipes + [newPipe];
        pipesAhead := pipesAhead + [newPipe];
      }
      spawnTimer := spawnTimer - 1;
    }

    /**
     * Score the head of `pipesAhead` once it is passed, and take it off
     * `pipesAhead`. The head is also an element of `pipes`, whose latch is
     * set with it.
     */
    method CheckPass()
      requires AheadIsSuffix()
      modifies this`pipes, this`pipesAhead, this`score
      ensures AheadIsSuffix()
      ensures Abs() == A.CheckPass(old(Abs()))
    {
      if |pipesAhead| > 0 {
        var h := |pipes| - |pipesAhead|;
        var (p0, ok) := pipesAhead[0].Passed(gophersX);
        pipes := pipes[h := p0];
        pipesAhead := pipesAhead[0 := p0];
        if ok {
          score := score + 1;
          pipesAhead := pipesAhead[1..];
        }
      }
    }

    /**
     * The hit loop: for every pipe, every gopher still in the map that the
     * pipe hits, or that has left the field, is deleted.
     */
    method RemoveHit()
      requires KeyedByID(gophers)
      modifies this`gophers
      ensures KeyedByID(gophers)
      ensures Abs() == A.RemoveHit(old(Abs()))
    {
      var bound := A.HitBound(Cfg());
      ghost var g0 := gophers;
      for i := 0 to |pipes|
        invariant KeyedByID(gophers)
        invariant gophers == PruneAll(g0, pipes[..i], gopherW, gopherH, bound)
      {
        var pipe := pipes[i];
        ghost var before := gophers;
        var todo := gophers.Keys;
        while todo != {}
          invariant KeyedByID(before)
          invariant todo <= before.Keys
          invariant gophers.Keys <= before.Keys
          invariant forall k :: k in gophers ==> gophers[k] == before[k]
          invariant forall k :: k in before ==> (k in gophers <==> k in todo || !Hit(pipe, before[k], gopherW, gopherH, bound))
          decreases todo
        {
          NonEmptyHasElement(todo);
          var id :| id in todo;
          var gopher := gophers[id];
          if pipe.Collide(gopher, gopherW, gopherH) || gopher.OffScreenY(bound, gopherH) {
            gophers := gophers - {gopher.id};
          }
          todo := todo - {id};
        }
        ghost var pruned := PruneBy(before, pipe, gopherW, gopherH, bound);
        assert todo == {};
        forall k | k in before
          ensures k in gophers <==> k in pruned
        {
        }
        assert gophers.Keys == pruned.Keys;
        assert forall k :: k in gophers ==> gophers[k] == pruned[k];
        assert gophers == pruned;
        PruneByPrefix(g0, pipes, i, gopherW, gopherH, bound);
      }
      assert pipes[..|pipes|] == pipes;
    }

    /** The gopher phase of a playing tick: the jumps asked for, the moves, the base scroll. */
    method MovePhase(input: Option<map<int, bool>>)
      requires A.Inv(Abs())
      modifies this`gophers, this`base
      ensures A.Inv(Abs())
      ensures Abs() == A.MoveGophers(old(Abs()), input)
    {
      ghost var s0 := Abs();
      HandleInput(input);
      MoveGophers();
      base := base.Move();
      A.InvFrame(s0, Abs());
    }

    /** The pipe phase of a playing tick before the pass check: drop, move, spawn. */
    method PipePhase(draw: int)
      requires AheadIsSuffix() && A.Inv(Abs())
      modifies this`pipes, this`pipesAhead, this`spawnTimer
      ensures AheadIsSuffix()
      ensures Abs() == A.PipePhases(old(Abs()), draw)
    {
      A.DropHeadKeepsInv(Abs());
      DropHead();
      MovePipes();
      SpawnPipe(draw);
    }

    /** The hit loop and the end-of-game test that close a playing tick. */
    method EndPhase()
      requires KeyedByID(gophers)
      modifies this`gophers, this`mode
      ensures KeyedByID(gophers)
      ensures Abs() == A.EndTick(old(Abs()))
    {
      RemoveHit();
      if |gophers| == 0 {
        GameOver();
      }
    }

    /** The playing branch of `Step`. */
    method PlayTick(input: Option<map<int, bool>>, draw: int)
      requires Valid() && mode == A.ModePlay
      modifies this
      ensures AheadIsSuffix() && KeyedByID(gophers)
      ensures Abs() == A.EndTick(A.CheckPass(A.BeforePass(old(Abs()), input, draw)))
    {
      ghost var s0 := Abs();
      MovePhase(input);
      PipePhase(draw);
      ghost var s2 := Abs();
      assert s2 == A.BeforePass(s0, input, draw);
      CheckPass();
      EndPhase();
    }

    /** `Step`: one tick of play, or nothing but the step count once the game is over. */
    method Step(input: Option<map<int, bool>>, draw: int)
      requires Valid() && A.DrawFits(Abs(), draw)
      modifies this
      ensures Valid()
      ensures Abs() == A.Step(old(Abs()), input, draw)
    {
      ghost var s0 := Abs();
      if mode == A.ModePlay {
        PlayTick(input, draw);
      }
      stepID := stepID + 1;
      assert Abs() == A.Step(s0, input, draw);
      A.StepKeepsInv(s0, input, draw);
    }

    /**
     * `Update`: with the throttle on, `stepsPerUpdate` steps and then the
     * hill-climbing adjustment from the measured `tps`; otherwise two steps.
     */
    method Update(inputs: seq<Option<map<int, bool>>>, draws: seq<int>, tps: real)
      requires Valid()
      requires |inputs| == |draws| == A.StepsThisUpdate(Abs())
      requires forall i :: 0 <= i < |draws| ==> 0 <= draws[i] < A.PipeDrawRange(Abs())
      modifies this
      ensures Valid()
      ensures Abs() == A.Update(old(Abs()), inputs, draws, tps)
    {
      if dynamicSPU {
        RunThrottled(inputs, draws, tps);
      } else {
        RunTwo(inputs, draws);
      }
    }

    /** The throttled branch of `Update`: `stepsPerUpdate` steps, then the adjustment. */
    method RunThrottled(inputs: seq<Option<map<int, bool>>>, draws: seq<int>, tps: real)
      requires Valid() && dynamicSPU
      requires |inputs| == |draws| == A.StepsThisUpdate(Abs())
      requires forall i :: 0 <= i < |draws| ==> 0 <= draws[i] < A.PipeDrawRange(Abs())
      modifies this
      ensures Valid()
      ensures Abs() == A.Run(old(Abs()), inputs, draws).(stepsPerUpdate := A.NextStepsPerUpdate(old(stepsPerUpdate), tps))
    {
      ghost var s0 := Abs();
      var i := 0;
      while i < stepsPerUpdate
        invariant 0 <= i <= |inputs|
        invariant Valid()
        invariant Abs() == A.Run(s0, inputs[..i], draws[..i])
        invariant stepsPerUpdate == s0.stepsPerUpdate && dynamicSPU && gapY == s0.gapY
      {
        A.RunSnoc(s0, inputs, draws, i);
        Step(inputs[i], draws[i]);
        i := i + 1;
      }
      A.RunWhole(s0, inputs, draws);
      Throttle(tps);
    }

    /** The hill-climbing adjustment of `Update` from the measured rate `tps`. */
    method Throttle(tps: real)
      requires Valid()
      modifies this`stepsPerUpdate
      ensures Valid()
      ensures Abs() == old(Abs()).(stepsPerUpdate := A.NextStepsPerUpdate(old(stepsPerUpdate), tps))
    {
      ghost var s0 := Abs();
      if tps < 50.0 {
        if stepsPerUpdate > 1 {
          stepsPerUpdate := stepsPerUpdate - 1;
        }
      } else {
        stepsPerUpdate := stepsPerUpdate + 1;
      }
      assert stepsPerUpdate == A.NextStepsPerUpdate(s0.stepsPerUpdate, tps);
      assert Abs() == s0.(stepsPerUpdate := stepsPerUpdate);
      A.InvThrottle(s0, stepsPerUpdate);
    }

    /** The fixed branch of `Update`: two steps. */
    method RunTwo(inputs: seq<Option<map<int, bool>>>, draws: seq<int>)
      requires Valid()
      requires |inputs| == |draws| == 2
      requires 0 <= draws[0] < A.PipeDrawRange(Abs()) && 0 <= draws[1] < A.PipeDrawRange(Abs())
      modifies this
      ensures Valid()
      ensures Abs() == A.Run(old(Abs()), inputs, draws)
    {
      ghost var s0 := Abs();
      assert inputs[..0] == [] && draws[..0] == [];
      A.RunSnoc(s0, inputs, draws, 0);
      Step(inputs[0], draws[0]);
      assert A.PipeDrawRange(Abs()) == A.PipeDrawRange(s0);
      A.RunSnoc(s0, inputs, draws, 1);
      Step(inputs[1], draws[1]);
      A.RunWhole(s0, inputs, draws);
    }
  }
}
