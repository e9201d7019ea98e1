/**
 * The human-play `Game` of main.go as an object whose `Step` updates its
 * fields in place. The gophers are a map from id to gopher value and the
 * pipes a list of pipe values; `Abs` gives the value of the game, and every
 * method is proved to agree with the functions of HumanSpec.
 */
module HumanGame {
  import opened Common
  import opened Gophers
  import opened Pipes
  import opened Bases
  import opened Spawning
  import opened Collisions
  import H = HumanSpec

  class Game {
    const gopherW: int
    const gopherH: int
    var mode: H.Mode
    var gophers: map<int, GopherState>
    var speed: int
    var pipes: seq<PipeState>
    var spawnDelay: int
    var gapY: int
    var timer: int
    var base: BaseState
    var gameoverCount: int
    var score: int

    /** The value of the game. */
    function Abs(): H.State
      reads this
    {
      H.State(gopherW, gopherH, mode, gophers, speed, pipes, spawnDelay, gapY, timer, base, gameoverCount, score)
    }

    ghost predicate Valid()
      reads this
    {
      H.Inv(Abs())
    }

    /** `NewGame`: a zero-valued game on the title screen, then `init`. */
    constructor (gopherW: int, gopherH: int)
      ensures Valid()
      ensures Abs() == H.NewGame(gopherW, gopherH)
    {
      this.gopherW := gopherW;
      this.gopherH := gopherH;
      mode := H.ModeTitle;
      timer := 0;
      gameoverCount := 0;
      score := 0;
      base := BaseState(0, 0, 0);
      new;
      Init();
      H.NewGameFacts(gopherW, gopherH);
    }

    /** `init`: only the population, the pipes, their parameters and the base are reset. */
    method Init()
      modifies this`gophers, this`spawnDelay, this`gapY, this`pipes, this`speed, this`base
      ensures Abs() == H.Init(old(Abs()))
    {
      gophers := map[];
      gophers := gophers[1 := GopherState(1, 120.0, 100.0, 0.0)];
      gophers := gophers[2 := GopherState(2, 200.0, 100.0, 0.0)];
      spawnDelay := H.StartSpawnDelay;
      gapY := H.StartGapY;
      pipes := [];
      speed := H.StartSpeed;
      base := NewBase(H.WindowHeight, speed);
    }

    function Score(): int
      reads this
    {
      score
    }

    /** The gophers jump on a key press, then all move; the base scrolls. */
    method MovePhase(key: bool)
      modifies this`gophers, this`base
      ensures Abs() == H.MovePhase(old(Abs()), key)
    {
      if key {
        gophers := JumpEach(gophers);
      }
      gophers := MoveEach(gophers);
      base := base.Move();
    }

    /** Drop the head pipe once it has left the window, move the pipes, run the spawner. */
    method PipePhase(draw: int)
      modifies this`pipes, this`timer
      ensures Abs() == H.PipePhase(old(Abs()), draw)
    {
      if |pipes| > 0 && pipes[0].PosX() + pipes[0].Width() < 0 {
        pipes := pipes[1..];
      }
      pipes := MoveEachPipe(pipes);
      if timer <= 0 {
        timer := spawnDelay;
        var newPipe := NewPipe(H.WindowWidth, H.WindowHeight, gapY, speed, draw);
        pipes := pipes + [newPipe];
      }
      timer := timer - 1;
    }

    /**
     * The hit loop: for every pipe, every gopher in the map when the pipe's
     * inner loop starts is deleted when it is hit or off the field, and then
     * offered to the pipe's `Score`.
     */
    method HitPhase()
      requires KeyedByID(gophers)
      modifies this`gophers, this`pipes, this`score
      ensures Abs() == H.HitPhase(old(Abs()))
    {
      ghost var g0, p0, score0 := gophers, pipes, score;
      ghost var done := H.HitLoop(g0, [], gopherW, gopherH);
      assert p0[..0] == [];
      for i := 0 to |pipes|
        invariant |pipes| == |p0| && |done.pipes| == i
        invariant done == H.HitLoop(g0, p0[..i], gopherW, gopherH)
        invariant gophers == done.gophers && pipes == done.pipes + p0[i..] && score == score0 + done.gained
        invariant KeyedByID(gophers)
      {
        assert pipes[i] == p0[i];
        VisitPipe(i);
        H.HitAdvance(g0, p0, i, gopherW, gopherH, score0, done, gophers, pipes, score);
        done := H.HitLoop(g0, p0[..i + 1], gopherW, gopherH);
      }
      assert p0[..|p0|] == p0;
    }

    /** The inner loop of the hit loop for pipe `i`, over the gophers in the map when it starts. */
    method VisitPipe(i: int)
      requires 0 <= i < |pipes| && KeyedByID(gophers)
      modifies this`gophers, this`pipes, this`score
      ensures KeyedByID(gophers)
      ensures gophers == PruneBy(old(gophers), old(pipes[i]), gopherW, gopherH, H.HitBound)
      ensures pipes == old(pipes)[i := H.ScoreBy(old(pipes[i]), old(gophers), old(gophers).Keys).0]
      ensures score == old(score) + H.ScoreBy(old(pipes[i]), old(gophers), old(gophers).Keys).1
    {
      ghost var before, pipe0, pipes0, scoreBefore := gophers, pipes[i], pipes, score;
      var todo := gophers.Keys;
      while todo != {}
        invariant todo <= before.Keys
        invariant gophers.Keys <= before.Keys
        invariant forall k :: k in gophers ==> gophers[k] == before[k]
        invariant forall k :: k in before ==> (k in gophers <==> k in todo || !Hit(pipe0, before[k], gopherW, gopherH, H.HitBound))
        invariant KeyedByID(before)
        invariant pipes == pipes0[i := H.ScoreBy(pipe0, before, before.Keys - todo).0]
        invariant score == scoreBefore + H.ScoreBy(pipe0, before, before.Keys - todo).1
        decreases todo
      {
        NonEmptyHasElement(todo);
        var id :| id in todo;
        var gopher := gophers[id];
        H.ScoreByStep(pipe0, before, before.Keys - todo, id);
        H.ScoreByFacts(pipe0, before, before.Keys - todo);
        assert before.Keys - todo + {id} == before.Keys - (todo - {id});
        if pipes[i].Collide(gopher, gopherW, gopherH) || gopher.OffScreenY(H.HitBound, gopherH) {
          gophers := gophers - {gopher.id};
        }
        var (q, n) := pipes[i].Score(gopher.PosX());
        pipes := pipes[i := q];
        score := score + n;
        todo := todo - {id};
      }
      assert before.Keys - todo == before.Keys;
      ghost var pruned := PruneBy(before, pipe0, gopherW, gopherH, H.HitBound);
      forall k | k in before
        ensures k in gophers <==> k in pruned
      {
      }
      assert gophers.Keys == pruned.Keys;
      assert forall k :: k in gophers ==> gophers[k] == pruned[k];
    }

    /** One `Step`, with `isKeyJustPressed()` as `key` and the `rand.Intn` result of a spawn as `draw`. */
    method Step(key: bool, draw: int)
      requires Valid() && H.DrawFits(Abs(), draw)
      modifies this
      ensures Valid()
      ensures Abs() == H.Step(old(Abs()), key, draw)
    {
      ghost var s0 := Abs();
      match mode {
        case ModeTitle =>
          if key {
            mode := H.ModeGame;
          }
        case ModeGame =>
          MovePhase(key);
          PipePhase(draw);
          H.JumpBeforeMove(s0, key);
          HitPhase();
          if |gophers| == 0 {
            mode := H.ModeGameOver;
            gameoverCount := H.GameOverTicks;
          }
        case ModeGameOver =>
          if gameoverCount > 0 {
            gameoverCount := gameoverCount - 1;
          }
          if gameoverCount == 0 && key {
            Init();
            mode := H.ModeTitle;
          }
      }
      H.StepKeepsInv(s0, key, draw);
    }
  }
}
