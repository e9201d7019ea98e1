/**
 * The human-play game of main.go, as functions on the value of its state.
 * `Step` is a three-mode machine: the title screen waits for a key press,
 * the game runs one tick of gophers, pipes and the hit loop, and the
 * game-over screen counts down before a key press reinitialises the world.
 * The class in HumanGame performs the same tick in place and is proved to
 * agree with these functions.
 */
module HumanSpec {
  import opened Common
  import opened Gophers
  import opened Pipes
  import opened Bases
  import opened Spawning
  import opened Collisions
  import A = AgentSpec

  datatype Mode = ModeTitle | ModeGame | ModeGameOver

  const WindowWidth: int := 640
  const WindowHeight: int := 480
  /** Ticks the game-over screen ignores key presses for. */
  const GameOverTicks: int := 30
  /** The hit loop deletes gophers that leave the field above the ground row. */
  const HitBound: int := WindowHeight - TileSize

  /** Constants of `init`. */
  const StartSpawnDelay: int := 110
  const StartGapY: int := 180
  const StartSpeed: int := 3

  /**
   * The simulated fields of the game. `gopherW` and `gopherH` are the size of
   * the gopher image, fixed for the lifetime of the game.
   */
  datatype State = State(
    gopherW: int,
    gopherH: int,
    mode: Mode,
    gophers: map<int, GopherState>,
    speed: int,
    pipes: seq<PipeState>,
    spawnDelay: int,
    gapY: int,
    timer: int,
    base: BaseState,
    gameoverCount: int,
    score: int)

  /** The two gophers of `init`, at rest. */
  function StartGophers(): map<int, GopherState>
  {
    map[1 := GopherState(1, 120.0, 100.0, 0.0), 2 := GopherState(2, 200.0, 100.0, 0.0)]
  }

  /** `init`: a new population, no pipes, the starting parameters and a new base; the other fields are kept. */
  function Init(s: State): State
  {
    s.(gophers := StartGophers(), spawnDelay := StartSpawnDelay, gapY := StartGapY, pipes := [],
       speed := StartSpeed, base := NewBase(WindowHeight, StartSpeed))
  }

  /** `NewGame`: a zero-valued game (title screen, timer, count and score 0), then `init`. */
  function NewGame(gopherW: int, gopherH: int): State
  {
    Init(State(gopherW, gopherH, ModeTitle, map[], 0, [], 0, 0, 0, BaseState(0, 0, 0), 0, 0))
  }

  /** The gopher phase of a game tick: every gopher jumps on a key press, then every gopher moves; the base scrolls. */
  function MovePhase(s: State, key: bool): State
  {
    s.(gophers := MoveAll(if key then JumpAll(s.gophers) else s.gophers), base := s.base.Move())
  }

  predicate HeadOffScreen(s: State)
  {
    |s.pipes| > 0 && s.pipes[0].PosX() + s.pipes[0].Width() < 0
  }

  /** Step 1 of the pipe update: the head pipe is dropped once its right edge is left of the window. */
  function DropHead(s: State): State
  {
    if HeadOffScreen(s) then s.(pipes := s.pipes[1..]) else s
  }

  /** Step 2: every pipe moves. */
  function MovePipes(s: State): State
  {
    s.(pipes := MoveAllPipes(s.pipes))
  }

  /** Step 3: the spawner; `draw` is the `rand.Intn` result of `NewPipe`. */
  function Spawn(s: State, draw: int): State
  {
    s.(pipes := s.pipes + (if Spawns(s.timer) then [NewPipe(WindowWidth, WindowHeight, s.gapY, s.speed, draw)] else []),
       timer := NextTimer(s.timer, s.spawnDelay))
  }

  /** Argument of the `rand.Intn` of `NewPipe`: 480 - 180 - 64 = 236 with the gap `init` sets. */
  function PipeDrawRange(s: State): int { WindowHeight - s.gapY - 2 * TileSize }

  /** The draw a step consumes is a result of `rand.Intn(PipeDrawRange)` whenever the step spawns a pipe. */
  predicate DrawFits(s: State, draw: int)
  {
    s.mode == ModeGame && Spawns(s.timer) ==> 0 <= draw < PipeDrawRange(s)
  }

  /** Some gopher among the keys `ks` is right of the pipe's right edge. */
  predicate SomePast(p: PipeState, gs: map<int, GopherState>, ks: set<int>)
  {
    exists k :: k in ks && k in gs && p.PosX() + p.Width() < gs[k].PosX()
  }

  /**
   * The effect on one pipe of `score += pipe.Score(gopher)` for every gopher
   * of `ks`, in any order: the pipe scores once, when it was not scored yet,
   * some gopher was visited and it was already passed or a visited gopher is
   * past it.
   */
  function ScoreBy(p: PipeState, gs: map<int, GopherState>, ks: set<int>): (PipeState, int)
  {
    if !p.scored && ks != {} && (p.passed || SomePast(p, gs, ks)) then (p.(passed := true, scored := true), 1)
    else (p, 0)
  }

  /** The result of the hit loop: survivors, pipes with their latches, points won. */
  datatype Hits = Hits(gophers: map<int, GopherState>, pipes: seq<PipeState>, gained: int)

  /**
   * The hit loop over the pipes of `ps` in order. Every gopher still in the
   * map when a pipe's inner loop starts is visited: it is deleted when the
   * pipe hits it or it has left the field, and it is offered to the pipe's
   * `Score` whether or not it was just deleted.
   */
  function HitLoop(gs: map<int, GopherState>, ps: seq<PipeState>, gopherW: int, gopherH: int): Hits
    decreases |ps|
  {
    if ps == [] then Hits(gs, [], 0)
    else
      var n := |ps| - 1;
      var r := HitLoop(gs, ps[..n], gopherW, gopherH);
      var (q, k) := ScoreBy(ps[n], r.gophers, r.gophers.Keys);
      Hits(PruneBy(r.gophers, ps[n], gopherW, gopherH, HitBound), r.pipes + [q], r.gained + k)
  }

  /** The hit loop over one more pipe. */
  lemma HitLoopSnoc(gs: map<int, GopherState>, ps: seq<PipeState>, i: int, gopherW: int, gopherH: int)
    requires 0 <= i < |ps|
    ensures var r := HitLoop(gs, ps[..i], gopherW, gopherH);
            var (q, k) := ScoreBy(ps[i], r.gophers, r.gophers.Keys);
            && HitLoop(gs, ps[..i + 1], gopherW, gopherH) == Hits(PruneBy(r.gophers, ps[i], gopherW, gopherH, HitBound), r.pipes + [q], r.gained + k)
            && |r.pipes| == i
  {
    assert ps[..i + 1][..i] == ps[..i];
    HitLoopScore(gs, ps[..i], gopherW, gopherH);
  }

  /** The bookkeeping of one round of the outer hit loop: the inner loop for pipe `i` extends the prefix by one. */
  lemma HitAdvance(g0: map<int, GopherState>, p0: seq<PipeState>, i: int, gopherW: int, gopherH: int, score0: int,
                   done: Hits, gs: map<int, GopherState>, ps: seq<PipeState>, sc: int)
    requires 0 <= i < |p0| && done == HitLoop(g0, p0[..i], gopherW, gopherH) && |done.pipes| == i
    requires gs == PruneBy(done.gophers, p0[i], gopherW, gopherH, HitBound)
    requires ps == (done.pipes + p0[i..])[i := ScoreBy(p0[i], done.gophers, done.gophers.Keys).0]
    requires sc == score0 + done.gained + ScoreBy(p0[i], done.gophers, done.gophers.Keys).1
    ensures var next := HitLoop(g0, p0[..i + 1], gopherW, gopherH);
            gs == next.gophers && ps == next.pipes + p0[i + 1..] && sc == score0 + next.gained && |next.pipes| == i + 1
  {
    HitLoopSnoc(g0, p0, i, gopherW, gopherH);
    SpliceAt(done.pipes, p0, i, ScoreBy(p0[i], done.gophers, done.gophers.Keys).0);
  }

  function HitPhase(s: State): State
  {
    var r := HitLoop(s.gophers, s.pipes, s.gopherW, s.gopherH);
    s.(gophers := r.gophers, pipes := r.pipes, score := s.score + r.gained)
  }

  /** The round ends when no gopher is left. */
  function EndRound(s: State): State
  {
    if |s.gophers| == 0 then s.(mode := ModeGameOver, gameoverCount := GameOverTicks) else s
  }

  /** The pipe phases of a game tick, before the hit loop. */
  function PipePhase(s: State, draw: int): State
  {
    Spawn(MovePipes(DropHead(s)), draw)
  }

  /** One tick in `ModeGame`. */
  function GameTick(s: State, key: bool, draw: int): State
  {
    EndRound(HitPhase(PipePhase(MovePhase(s, key), draw)))
  }

  /** One tick in `ModeGameOver`: the countdown, then a key press back to the title screen. */
  function GameOverTick(s: State, key: bool): State
  {
    var c := if s.gameoverCount > 0 then s.gameoverCount - 1 else s.gameoverCount;
    var t := s.(gameoverCount := c);
    if c == 0 && key then Init(t).(mode := ModeTitle) else t
  }

  /** `Step`, with `isKeyJustPressed()` as `key`. */
  function Step(s: State, key: bool, draw: int): State
  {
    match s.mode
    case ModeTitle => if key then s.(mode := ModeGame) else s
    case ModeGame => GameTick(s, key, draw)
    case ModeGameOver => GameOverTick(s, key)
  }

  /** What every reachable state satisfies. */
  predicate Inv(s: State)
  {
    && KeyedByID(s.gophers)
    && s.spawnDelay == StartSpawnDelay && s.gapY == StartGapY && s.speed == StartSpeed
    && 0 <= s.timer < s.spawnDelay
    && 0 <= s.gameoverCount <= GameOverTicks
  }

  // ---------------------------------------------------------------- lemmas

  /** A new game shows the title screen with the two starting gophers, no pipe and score 0. */
  lemma NewGameFacts(gopherW: int, gopherH: int)
    ensures var s := NewGame(gopherW, gopherH);
            && s.mode == ModeTitle && s.score == 0 && s.pipes == [] && s.timer == 0
            && s.gophers.Keys == {1, 2} && s.gophers[1].x == 120.0 && s.gophers[2].x == 200.0
            && Inv(s)
  {
  }

  /** On the title screen a key press starts the game and nothing else changes; without one nothing changes at all. */
  lemma TitleStep(s: State, key: bool, draw: int)
    requires s.mode == ModeTitle
    ensures Step(s, key, draw).mode == ModeGame <==> key
    ensures !key ==> Step(s, key, draw).mode == ModeTitle
    ensures Step(s, key, draw) == s.(mode := Step(s, key, draw).mode)
  {
  }

  /**
   * On a key press every gopher jumps and then moves: it rises by the jump
   * speed, whatever its old speed; without one it only moves. The population
   * keeps its ids.
   */
  lemma JumpBeforeMove(s: State, key: bool)
    ensures MovePhase(s, key).gophers.Keys == s.gophers.Keys
    ensures key ==> forall k :: k in s.gophers ==>
              && MovePhase(s, key).gophers[k] == s.gophers[k].Jump().Move()
              && MovePhase(s, key).gophers[k].y == s.gophers[k].y + JumpSpeed
              && MovePhase(s, key).gophers[k].speedY == JumpSpeed + Gravity
    ensures !key ==> forall k :: k in s.gophers ==> MovePhase(s, key).gophers[k] == s.gophers[k].Move()
  {
  }

  /**
   * The spawn rule is the engine's: from the same timer, delay, pipes, gap
   * and speed in a 640 by 480 window, both append the same pipe in the same
   * ticks and leave the same timer.
   */
  lemma SpawnMatchesEngine(s: State, a: A.State, draw: int)
    requires a.spawnTimer == s.timer && a.spawnDelay == s.spawnDelay && a.pipes == s.pipes
    requires a.gapY == s.gapY && a.speed == s.speed
    requires a.cfg.windowW == WindowWidth && a.cfg.windowH == WindowHeight
    ensures A.SpawnPipe(a, draw).pipes == Spawn(s, draw).pipes
    ensures A.SpawnPipe(a, draw).spawnTimer == Spawn(s, draw).timer
    ensures Spawns(s.timer) ==> Spawn(s, draw).timer == s.spawnDelay - 1 && |Spawn(s, draw).pipes| == |s.pipes| + 1
    ensures !Spawns(s.timer) ==> Spawn(s, draw).timer == s.timer - 1 && Spawn(s, draw).pipes == s.pipes
  {
  }

  /** A `ScoreBy` over one more gopher is the `ScoreBy` so far followed by that gopher's `Score` call. */
  lemma ScoreByStep(p: PipeState, gs: map<int, GopherState>, ks: set<int>, k: int)
    requires k in gs && ks <= gs.Keys
    ensures var (q, n) := ScoreBy(p, gs, ks);
            var (q2, n2) := q.Score(gs[k].PosX());
            ScoreBy(p, gs, ks + {k}) == (q2, n + n2)
  {
    var (q, n) := ScoreBy(p, gs, ks);
    if !p.scored && !p.passed && !SomePast(p, gs, ks) && p.PosX() + p.Width() < gs[k].PosX() {
      assert SomePast(p, gs, ks + {k});
    }
    if SomePast(p, gs, ks + {k}) && !SomePast(p, gs, ks) {
      assert p.PosX() + p.Width() < gs[k].PosX();
    }
  }

  /**
   * `ScoreBy` wins at most one point, exactly when it sets `scored`; a scored
   * pipe is left as it is; position, gap and speed never change.
   */
  lemma ScoreByFacts(p: PipeState, gs: map<int, GopherState>, ks: set<int>)
    ensures var (q, n) := ScoreBy(p, gs, ks);
            && (n == 0 || n == 1)
            && (n == 1 <==> !p.scored && q.scored)
            && (p.scored ==> q == p)
            && (q.scored <==> p.scored || n == 1)
            && q.x == p.x && q.topY == p.topY && q.gap == p.gap && q.speed == p.speed
  {
  }

  /** The number of pipes of `ps` whose `scored` latch is set. */
  function NumScored(ps: seq<PipeState>): nat
    decreases |ps|
  {
    if ps == [] then 0 else NumScored(ps[..|ps| - 1]) + (if ps[|ps| - 1].scored then 1 else 0)
  }

  /** The hit loop deletes exactly what the engine's hit loop deletes: scoring plays no part in it. */
  lemma {:induction false} HitLoopGophers(gs: map<int, GopherState>, ps: seq<PipeState>, gopherW: int, gopherH: int)
    ensures HitLoop(gs, ps, gopherW, gopherH).gophers == PruneAll(gs, ps, gopherW, gopherH, HitBound)
    decreases |ps|
  {
    if ps != [] {
      HitLoopGophers(gs, ps[..|ps| - 1], gopherW, gopherH);
    }
  }

  /** The hit loop keeps every pipe's geometry, and a scored pipe stays as it is. */
  lemma {:induction false} HitLoopPipes(gs: map<int, GopherState>, ps: seq<PipeState>, gopherW: int, gopherH: int)
    ensures var r := HitLoop(gs, ps, gopherW, gopherH);
            && SameGeometry(ps, r.pipes)
            && (forall i :: 0 <= i < |ps| && ps[i].scored ==> r.pipes[i] == ps[i])
    decreases |ps|
  {
    if ps != [] {
      var n := |ps| - 1;
      var r0 := HitLoop(gs, ps[..n], gopherW, gopherH);
      HitLoopPipes(gs, ps[..n], gopherW, gopherH);
      ScoreByFacts(ps[n], r0.gophers, r0.gophers.Keys);
      var r := HitLoop(gs, ps, gopherW, gopherH);
      assert forall i :: 0 <= i < n ==> r.pipes[i] == r0.pipes[i] && ps[..n][i] == ps[i];
    }
  }

  /**
   * The points the hit loop wins are the number of pipes it newly latches as
   * scored, so at most one per pipe.
   */
  lemma {:induction false} HitLoopScore(gs: map<int, GopherState>, ps: seq<PipeState>, gopherW: int, gopherH: int)
    ensures var r := HitLoop(gs, ps, gopherW, gopherH);
            && |r.pipes| == |ps|
            && NumScored(ps) + r.gained == NumScored(r.pipes)
            && 0 <= r.gained <= |ps|
    decreases |ps|
  {
    if ps != [] {
      var n := |ps| - 1;
      var r0 := HitLoop(gs, ps[..n], gopherW, gopherH);
      HitLoopScore(gs, ps[..n], gopherW, gopherH);
      ScoreByFacts(ps[n], r0.gophers, r0.gophers.Keys);
      var r := HitLoop(gs, ps, gopherW, gopherH);
      assert r.pipes[..n] == r0.pipes;
      assert ps[..n][..n] == ps[..n];
    }
  }

  /**
   * In the game a step ends the round exactly when it leaves no gopher, and
   * then starts the 30-tick countdown; otherwise the game goes on.
   */
  lemma GameOverExactlyWhenEmpty(s: State, key: bool, draw: int)
    requires s.mode == ModeGame
    ensures var r := Step(s, key, draw);
            && (r.mode == ModeGameOver <==> |r.gophers| == 0)
            && (r.mode == ModeGameOver ==> r.gameoverCount == GameOverTicks)
            && (r.mode != ModeGameOver ==> r.mode == ModeGame && r.gameoverCount == s.gameoverCount)
  {
  }

  /**
   * A game step adds to the score only points of pipes it latches as scored,
   * so at most the number of pipes; the hit loop is the shared one.
   */
  lemma GameStepScore(s: State, key: bool, draw: int)
    requires s.mode == ModeGame
    ensures var t := PipePhase(MovePhase(s, key), draw);
            var r := Step(s, key, draw);
            && r.gophers == PruneAll(t.gophers, t.pipes, s.gopherW, s.gopherH, HitBound)
            && |r.pipes| == |t.pipes|
            && r.score - s.score == NumScored(r.pipes) - NumScored(t.pipes)
            && s.score <= r.score <= s.score + |r.pipes|
  {
    var t := PipePhase(MovePhase(s, key), draw);
    HitLoopGophers(t.gophers, t.pipes, s.gopherW, s.gopherH);
    HitLoopScore(t.gophers, t.pipes, s.gopherW, s.gopherH);
    assert Step(s, key, draw) == EndRound(HitPhase(t));
  }

  /** On the game-over screen the count goes down by one per step and stops at 0. */
  lemma Countdown(s: State, key: bool, draw: int)
    requires s.mode == ModeGameOver
    ensures Step(s, key, draw).gameoverCount == if s.gameoverCount > 0 then s.gameoverCount - 1 else s.gameoverCount
    ensures s.gameoverCount >= 0 ==> Step(s, key, draw).gameoverCount >= 0
  {
  }

  /**
   * The game-over screen goes back to the title exactly on a key press once
   * the count has run out (it was 1 or 0 before the step). Going back
   * reinitialises the gophers (ids 1 and 2), an empty pipe list, the spawn
   * delay, gap and speed; as written, the score and the timer are kept.
   */
  lemma BackToTitle(s: State, key: bool, draw: int)
    requires s.mode == ModeGameOver
    ensures var r := Step(s, key, draw);
            && (r.mode == ModeTitle <==> key && (s.gameoverCount == 0 || s.gameoverCount == 1))
            && (r.mode != ModeTitle ==> r.mode == ModeGameOver && r == s.(gameoverCount := r.gameoverCount))
            && (r.mode == ModeTitle ==>
                  && r.gophers.Keys == {1, 2} && r.gophers[1].id == 1 && r.gophers[2].id == 2
                  && r.pipes == [] && r.spawnDelay == 110 && r.gapY == 180 && r.speed == 3
                  && r.score == s.score && r.timer == s.timer && r.gameoverCount == 0)
  {
  }

  /** The hit loop only deletes gophers, so it keeps every survivor under its own id. */
  lemma HitKeepsKeyed(gs: map<int, GopherState>, ps: seq<PipeState>, gopherW: int, gopherH: int)
    requires KeyedByID(gs)
    ensures KeyedByID(HitLoop(gs, ps, gopherW, gopherH).gophers)
  {
    HitLoopGophers(gs, ps, gopherW, gopherH);
    PruneAllSurvivors(gs, ps, gopherW, gopherH, HitBound);
  }

  lemma GameTickKeepsInv(s: State, key: bool, draw: int)
    requires Inv(s)
    ensures Inv(GameTick(s, key, draw))
  {
    var m := MovePhase(s, key);
    assert KeyedByID(m.gophers);
    var t := PipePhase(m, draw);
    TimerStaysInRange(s.timer, s.spawnDelay);
    assert Inv(t);
    HitKeepsKeyed(t.gophers, t.pipes, s.gopherW, s.gopherH);
    assert Inv(HitPhase(t));
  }

  /** Every step keeps the invariant. */
  lemma StepKeepsInv(s: State, key: bool, draw: int)
    requires Inv(s)
    ensures Inv(Step(s, key, draw))
  {
    if s.mode == ModeGame {
      GameTickKeepsInv(s, key, draw);
    }
  }
}
