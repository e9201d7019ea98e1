# flappy-gopher in Dafny

A model of the per-tick simulation of flappy-gopher, with proofs. The game
exists in two variants that share their leaf objects:

- the **agent-population engine** of `game/game.go`. Its `Step` drains an
  optional batch of jump requests, moves every gopher and the ground, drops
  the pipe that has left the window, moves the pipes, runs the periodic
  spawner, scores the head of `pipesAhead` once the reference column
  `gophersX` has passed it, deletes every gopher that touches a pipe or
  leaves the field, and ends the round when the population is empty.
  `restart` builds the initial state and `Update` runs the steps of one
  frame, with an optional hill-climbing throttle on `stepsPerUpdate`.
- the **human-play game** of `main.go`. Its `Step` is a Title → Game →
  GameOver → Title machine driven by a single key. The game tick is the
  engine's, but without `pipesAhead`: each pipe scores through its own
  `Score` latch inside the hit loop. The game-over screen ignores the key
  for 29 ticks and accepts it on the 30th.

Modules, in dependency order:

| file | module | contents |
|---|---|---|
| common.dfy | `Common` | `Option`, Go's truncating integer division, two small set and sequence lemmas |
| gopher.dfy | `Gophers` | the gopher value `GopherState` and its `Gopher` object, the gravity and jump physics, the population loops `MoveEach`/`JumpEach` |
| pipe.dfy | `Pipes` | the pipe value `PipeState` and its `Pipe` object: spawn geometry, scrolling, collision, the `passed` and `scored` latches |
| base.dfy | `Bases` | the ground, whose scroll offset wraps at the tile width |
| spawner.dfy | `Spawning` | the spawn countdown the two games share, and its closed form |
| collisions.dfy | `Collisions` | the pruning done by the hit loop |
| agent_spec.dfy | `AgentSpec` | the engine as functions on its state (`Restart`, the phases of `Step`, `Run`, `Update`), its invariant and its properties |
| agent_game.dfy | `AgentGame` | the engine as a class whose methods update its fields in place, each proved against `AgentSpec` |
| human_spec.dfy | `HumanSpec` | the human-play game as functions on its state, with its invariant and properties |
| human_game.dfy | `HumanGame` | the human-play game as a class, proved against `HumanSpec` |

Each Go object whose methods change its fields in place is a Dafny
`class`. These are `Gopher`, `Pipe`, `Base` and the two `Game`s. Each class
has an abstraction function (`State()` or `Abs()`) that returns a datatype
value, and every method is proved to move that value as a pure function
says. The properties are proved about those pure functions.

Outside inputs are parameters:
- the key press of `isKeyJustPressed`;
- the pending input batch of the `select`, as an `Option<map<int, bool>>`;
- every `rand.Intn` result;
- the size of the gopher image;
- the engine's window size;
- `ebiten.ActualTPS()`.

The human game's window is the constant 640 by 480 of `main.go`. Both
`Score` methods are modelled as the field read `Game.Score()`.

Gopher `y` and `speedY` are float64 in the source. They only ever hold
multiples of 0.25 of moderate size, which float64 represents exactly, so
they are modelled as `real`. `int(g.y)` truncates toward zero and is
written out as `Gophers.Trunc`.

## Model

| member | source | states |
|---|---|---|
| Gophers.Trunc | game/gopher.go:39-45 | the conversion `int(f)` truncates toward zero: for f ≥ 0 the result is the largest integer not above f, for f < 0 the smallest integer not below f |
| Gophers.Gopher.constructor | game/gopher.go:16-23 | a new gopher has the given id and position and speed 0 |
| Gophers.Gopher.Jump | game/gopher.go:25-27 | in-place `Jump` agrees with the value `Jump`: speed set to -6 |
| Gophers.Gopher.Move | game/gopher.go:29-37 | in-place `Move` agrees with the value `Move`: position first, then gravity, then the clamp |
| Gophers.JumpOverridesSpeed | game/gopher.go:25-27 | a jump sets the speed to exactly -6 whatever it was before (the old speed is forgotten) and leaves id, x and y alone |
| Gophers.MoveIntegrates | game/gopher.go:29-37 | `Move` adds the speed from before gravity to `y`, and the new speed is min(old + 0.25, 96), so never above 96; id and x unchanged |
| Gophers.RestAndJumpScenario | game/gopher.go:25-37 | from rest, one move leaves `y` and gives speed 0.25; jump then move lowers `y` by 6 and gives speed -5.75 |
| Gophers.SpeedAfterMoves | game/gopher.go:29-37 | after n moves the speed is min(speed + 0.25 n, 96), and id and x are unchanged |
| Gophers.FreeFall | game/gopher.go:29-37 | until the clamp is reached, n moves give y + n·v + 0.25·n(n-1)/2 |
| Gophers.OffScreenYExact | game/gopher.go:43-45 | `OffScreenY(h)` in terms of the real `y`: it holds iff y ≤ -1 or y ≥ h - height + 1. A gopher at -1 < y < 0 still counts as on screen, because of the truncation |
| Gophers.MoveEach | game/game.go:195-197 | the loop over the map moves every gopher once, in any key order: the result is `MoveAll` |
| Gophers.JumpEach | main.go:175-179 | the key-press loop makes every gopher jump once, in any key order |
| Pipes.NewPipe | pipe.go:40-50 | a new pipe is at the right edge, with the given gap and speed and both latches clear; for a valid draw, tileSize ≤ topY < windowH - gap - tileSize and the bottom shaft starts above the ground row |
| Pipes.Pipe.constructor | pipe.go:40-50 | the object `NewPipe` agrees with the value `NewPipe` |
| Pipes.GapAndMove | pipe.go:110-127 | `PosBotY - PosTopY == gap` always, and `Move` only decreases x by the speed |
| Pipes.CollideIsContact | pipe.go:74-86 | `Collide` holds iff some point lies both in the gopher's closed box and in one of the two shafts: the two early exits are exactly horizontal separation, and under overlap it is "top above topY or bottom below topY + gap" |
| Pipes.PassedLatches | pipe.go:88-97 | once `passed` is set, no sequence of moves, passes and scores resets it, and every later `Passed` answers true |
| Pipes.ScoresAtMostOnce | pipe.go:98-108 | over any sequence of operations the `Score` results add up to 0 or 1, and to 0 once `scored` is set; `scored` is never reset |
| Pipes.Pipe.Move | pipe.go:110-112 | in-place `Move` agrees with the value `Move` |
| Pipes.Pipe.Passed | pipe.go:88-97 | in-place `Passed` agrees with the value `Passed`, both in the answer and in the new latch |
| Pipes.Pipe.Score | pipe.go:98-108 | in-place `Score` agrees with the value `Score`, both in the points and in the new latches |
| Pipes.MoveEachPipe | game/game.go:206-208 | the loop over the pipe list moves every pipe once |
| Bases.NewBase | base.go:16-23 | a new base has offset 0 and the given speed, and its tile row sits on the bottom edge of the window |
| Bases.Base.constructor | base.go:16-23 | the object `NewBase` agrees with the value `NewBase` |
| Bases.Base.Move | base.go:38-43 | in-place `Move` agrees with the value `Move` |
| Bases.MoveWraps | base.go:38-43 | from an offset in [0, tile) and a speed of at most one tile, `Move` keeps the offset in [0, tile), makes it (delta + speed) mod tile, and leaves y and speed alone |
| Bases.MoveIsCongruent | base.go:38-43 | for any offset and speed, the new offset is congruent to delta + speed modulo the tile width |
| Bases.ScrollAfterMoves | base.go:38-43 | after n moves the offset is (delta + n·speed) mod tile |
| Spawning.NextTimer | game/game.go:239-247 | a tick starting at timer ≤ 0 spawns and leaves delay - 1; otherwise the timer is decremented |
| Spawning.TimerStaysInRange | game/game.go:239-247 | the countdown keeps the timer in 0 .. delay - 1 |
| Spawning.TimerClosedForm | game/game.go:239-247 | after n ticks the timer is timer - n while that is at least 0, and after that it cycles through delay - 1 down to 0 |
| Spawning.SpawnsPeriodically | game/game.go:239-247 | tick n spawns iff n ≥ timer and n - timer is a multiple of the delay |
| Spawning.SpawnsEveryDelay | game/game.go:149 | from the timer of 0 that `restart` sets, a pipe is spawned at once and then every `spawnDelay` ticks |
| Collisions.PruneAllSurvivors | game/game.go:221-228 | whatever the loop order, a gopher survives the hit loop iff no pipe hits it and it stays in the field, and survivors are unchanged |
| Collisions.PruneAllIgnoresLatches | game/game.go:221-228 | the hit loop depends only on the pipes' position and gap, not on their latches |
| AgentSpec.RestartFacts | game/game.go:130-161 | after `restart(gopherN)` the ids are exactly 0 .. gopherN - 1, each gopher at rest at its drawn height. Mode is play; stepID, score and the timer are 0; there are no pipes; the throttle is 1 and off; `resetsNum` goes up by one; the invariant holds |
| AgentSpec.JumpRequested | game/game.go:183-193 | only ids that are in the map and mapped to true jump, unknown ids are ignored, and an empty mailbox changes nothing; no gopher is added or removed |
| AgentSpec.MoveGophers | game/game.go:183-198 | the gopher phase changes only the gophers and the base and keeps the set of ids |
| AgentSpec.DropHead | game/game.go:202-204 | the drop changes only `pipes` and the length of `pipesAhead` |
| AgentSpec.MovePipes | game/game.go:206-208 | the move changes only `pipes` |
| AgentSpec.SpawnPipe | game/game.go:239-247 | when the timer has run out, the same new pipe is appended to `pipes` and to `pipesAhead`; otherwise the lists are unchanged. Nothing but the lists and the timer changes |
| AgentSpec.CheckPass | game/game.go:212-219 | the score rises by 0 or 1, and score + |pipesAhead| is preserved; pipe positions and gaps are untouched |
| AgentSpec.RemoveHit | game/game.go:221-228 | the hit loop changes only the gophers, and only removes them |
| AgentSpec.BeforePass | game/game.go:183-210 | up to the pass check a tick does not touch score, mode, stepID or the ids |
| AgentSpec.EndTick | game/game.go:221-231 | the round ends iff it was over or no gopher survives; the population only shrinks |
| AgentSpec.PlayTick | game/game.go:181-231 | a playing tick ends the round exactly when it empties the population, only shrinks the population, adds 0 or 1 to the score and leaves stepID, throttle and gap alone |
| AgentSpec.Step | game/game.go:174-237 | every step adds exactly one to `stepID`. A game that is over stays over, and everything but `stepID` is frozen. Play turns into game over exactly in the step that empties the population. Ids only disappear, and the score rises by at most one |
| AgentSpec.DropHeadKeepsInv | game/game.go:202-204 | the dropped head is never still in `pipesAhead`, so the drop keeps the invariant and leaves score and `pipesAhead` alone |
| AgentSpec.MovePipesFacts | game/game.go:206-208 | after the move, the pipes keep their spacing and every pipe is one tick further left |
| AgentSpec.SpawnFacts | game/game.go:239-247 | after move and spawn, every pipe of `pipesAhead` behind its head still has its right edge at or past `gophersX` |
| AgentSpec.CheckPassFacts | game/game.go:212-219 | the pass check restores the invariant: the unpassed pipes are exactly `pipesAhead`, a suffix of `pipes` |
| AgentSpec.PipePhasesKeepInv | game/game.go:206-219 | move, spawn and pass check together keep the invariant |
| AgentSpec.StepKeepsKeyed | game/game.go:183-228 | jumps, moves and the hit loop keep every gopher stored under its own ID, so the hit loop's `delete(g.gophers, gopher.ID)` removes the entry it visits |
| AgentSpec.StepKeepsInv | game/game.go:174-237 | `Step` keeps the invariant. Gophers are keyed by ID, the spawn draw range is positive, speeds, spacing and ranges are in bounds, the unpassed pipes are exactly `pipesAhead`, and they are a suffix of `pipes` lying at or right of `gophersX` |
| AgentSpec.ScoreCountsPassedPipes | game/game.go:210-219 | in a playing tick, score + |pipesAhead| grows by exactly the number of pipes spawned: every point is a pipe leaving `pipesAhead` |
| AgentSpec.BeforePassCounts | game/game.go:183-210 | up to the pass check a tick leaves the score alone, and `pipesAhead` grows by the spawned pipe |
| AgentSpec.EndTickCounts | game/game.go:221-231 | the hit loop and the end test touch neither the score nor `pipesAhead` |
| AgentSpec.CheckPassScores | game/game.go:212-219 | the pass check scores iff the head of `pipesAhead` is past `gophersX`, and then removes exactly that head |
| AgentSpec.ScoresExactlyOnPass | game/game.go:212-219 | the score of a playing step rises iff, just before the check, the head of `pipesAhead` has its right edge left of `gophersX`; that head then leaves `pipesAhead` |
| AgentSpec.DropsAtMostOffScreenHead | game/game.go:200-210 | a step removes at most the head of `pipes`, and only when its right edge is left of the window. Every other pipe moves left by its speed, and a spawned pipe enters at the right edge with the drawn height |
| AgentSpec.SurvivorsAreSafe | game/game.go:183-228 | a gopher survives a playing step iff no pipe left after the step hits it after its jump and move, and it stays inside the field above the ground row; a survivor is the old gopher, jumped if asked, moved once |
| AgentSpec.RunCountsSteps | game/game.go:174-179 | over any run `stepID` counts the steps, a game that is over stays frozen, and ids only disappear |
| AgentSpec.RunKeepsInv | game/game.go:174-237 | over any run the invariant holds, and the score never falls and rises by at most one per step |
| AgentSpec.NextStepsPerUpdate | game/game.go:255-261 | the throttle rises by one when the measured rate is at least 50; otherwise it falls by one, but never below 1 |
| AgentSpec.ThrottleBounds | game/game.go:249-268 | from any start ≥ 1 the throttle stays ≥ 1 and rises at most one per update: it climbs by exactly n over n fast updates and settles at 1 under slow ones |
| AgentSpec.InvThrottle | game/game.go:255-261 | changing the throttle to any value ≥ 1 keeps the invariant |
| AgentSpec.Update | game/game.go:249-268 | one `Update` runs `stepsPerUpdate` steps with the throttle on and two with it off. With the throttle on it then adjusts the throttle, and with it off the throttle is unchanged |
| AgentSpec.RunSpu | game/game.go:174-237 | steps never change the throttle or its switch |
| AgentGame.NewPopulation | game/game.go:143-145 | the creation loop builds gophers 0 .. gopherN - 1 at their drawn heights |
| AgentGame.Game.constructor | game/game.go:121-128 | `NewGame` is the state `restart` builds, and the invariant holds |
| AgentGame.Game.Restart | game/game.go:130-161 | in-place `restart` gives exactly the restart state and keeps the class invariant |
| AgentGame.Game.ResetWorld | game/game.go:138-160 | every counter, list and parameter `restart` sets is back at its starting value |
| AgentGame.Game.GameOver | game/game.go:163-168 | `GameOver` only changes the mode |
| AgentGame.Game.HandleInput | game/game.go:183-193 | the loop over the input batch, in any key order, makes exactly the requested, known gophers jump |
| AgentGame.Game.MoveGophers | game/game.go:195-197 | every gopher moves once |
| AgentGame.Game.DropHead | game/game.go:202-204 | in-place drop of the off-screen head; `pipesAhead` stays a suffix of `pipes` |
| AgentGame.Game.MovePipes | game/game.go:206-208 | every pipe moves once, and a pipe that is also in `pipesAhead` moves there too |
| AgentGame.Game.SpawnPipe | game/game.go:239-247 | the spawned pipe goes to the end of both lists |
| AgentGame.Game.CheckPass | game/game.go:212-219 | the pass check latches the shared head pipe in both lists and scores when it is passed |
| AgentGame.Game.RemoveHit | game/game.go:221-228 | the nested hit loop deletes exactly the gophers that some pipe hits or that leave the field, whatever the map's iteration order |
| AgentGame.Game.MovePhase | game/game.go:183-198 | the gopher phase in place, and the invariant is kept |
| AgentGame.Game.PipePhase | game/game.go:200-210 | drop, move and spawn in place |
| AgentGame.Game.EndPhase | game/game.go:221-231 | the hit loop and the end test in place |
| AgentGame.Game.PlayTick | game/game.go:181-231 | the playing branch in place |
| AgentGame.Game.Step | game/game.go:174-237 | for a spawn draw in the range of `rand.Intn`, in-place `Step` moves the engine exactly as `AgentSpec.Step` and keeps the class invariant |
| AgentGame.Game.Update | game/game.go:249-268 | in-place `Update` moves the engine exactly as `AgentSpec.Update` |
| AgentGame.Game.RunThrottled | game/game.go:250-261 | the loop of `stepsPerUpdate` steps is the run over its inputs, followed by the adjustment |
| AgentGame.Game.Throttle | game/game.go:255-261 | the if/else adjustment changes only `stepsPerUpdate`, as `NextStepsPerUpdate` says |
| AgentGame.Game.RunTwo | game/game.go:262-266 | the fixed branch is a run of two steps |
| HumanSpec.NewGameFacts | main.go:134-152 | a new game shows the title screen with gophers 1 and 2, no pipe, timer and score 0; the invariant holds |
| HumanSpec.TitleStep | main.go:170-173 | on the title screen the game starts iff the key is pressed, and nothing else changes |
| HumanSpec.JumpBeforeMove | main.go:175-182 | on a key press every gopher jumps before it moves, so it rises by 6 and has speed -5.75 whatever its old speed; without one it only moves; the ids are kept |
| HumanSpec.SpawnMatchesEngine | main.go:195-200 | the spawn lines give the same pipes and timer as the engine's `SpawnPipe`: a spawn leaves delay - 1 and one more pipe, otherwise the timer is decremented |
| HumanSpec.ScoreByStep | main.go:203-210 | offering the pipe one more gopher is one more `Score` call, whatever the order |
| HumanSpec.ScoreByFacts | main.go:203-210 | one pipe's scoring wins 0 or 1 point: 1 exactly when it sets `scored`. A scored pipe is unchanged, and position and gap never change |
| HumanSpec.HitLoopGophers | main.go:203-210 | the hit loop deletes exactly what the engine's hit loop deletes; scoring plays no part in it |
| HumanSpec.HitLoopPipes | main.go:203-210 | the hit loop keeps every pipe's geometry and leaves scored pipes as they are |
| HumanSpec.HitLoopScore | main.go:203-210 | the points won are the number of pipes newly latched as scored, so at most one per pipe |
| HumanSpec.GameOverExactlyWhenEmpty | main.go:211-214 | a game step ends the round iff it leaves no gopher, and then sets the count to 30; otherwise the game goes on |
| HumanSpec.GameStepScore | main.go:203-210 | a game step deletes what the shared hit loop deletes. Its score gain equals the number of pipes it latches as scored, so it lies between 0 and the number of pipes |
| HumanSpec.Countdown | main.go:217-219 | on the game-over screen the count goes down by one per step and never below 0 |
| HumanSpec.BackToTitle | main.go:216-223 | game over goes back to the title iff the key is pressed once the count has run out, and then resets to gophers 1 and 2, no pipes, delay 110, gap 180, speed 3; score and timer are kept. Otherwise only the count changes |
| HumanSpec.HitKeepsKeyed | main.go:203-207 | the hit loop only deletes, so every survivor stays under its own id |
| HumanSpec.GameTickKeepsInv | main.go:174-214 | a game tick keeps the invariant |
| HumanSpec.StepKeepsInv | main.go:168-225 | every step keeps the invariant: gophers keyed by id, parameters at their `init` values, timer in 0 .. 109, count in 0 .. 30 |
| HumanGame.Game.constructor | main.go:134-141 | `NewGame` is a zero-valued game after `init`, and the invariant holds |
| HumanGame.Game.Init | main.go:143-152 | in-place `init` resets the gophers, pipes, parameters and base and nothing else |
| HumanGame.Game.MovePhase | main.go:175-183 | the jump loop, the move loop and the base scroll, in place |
| HumanGame.Game.PipePhase | main.go:187-200 | drop, move and spawn in place |
| HumanGame.Game.HitPhase | main.go:203-210 | the nested loops are the hit loop over the pipes in order |
| HumanGame.Game.VisitPipe | main.go:204-209 | the inner loop for one pipe, in any key order, deletes exactly the gophers the pipe hits or that leave the field, and gives the pipe's scoring over all gophers it visits |
| HumanGame.Game.Step | main.go:168-225 | for a spawn draw in the range of `rand.Intn`, in-place `Step` moves the game exactly as `HumanSpec.Step` and keeps the invariant |

## Left out

- Rendering is not modelled. This covers every `Draw` method, `toTiling`, `Layout`, fonts, images, the CRT shader and the `init` functions that load assets: they are pixel work and library calls.
- Concurrency is not modelled. This covers the mutexes, the `inpChan`, `statesChan` and `done` channels and their closing in `restart` and `GameOver`, `activeRequests`, and `pushState`. The pending input batch of the `select` is a parameter of `Step`, and `GameOver` is only the mode change.
- `pushState`, `State`, `NextState` and the engine's `Restart` wrapper are not part of this model.
- `rand.Intn(n)` panics when n is not positive. The model does not model the panic: it requires what keeps the source from reaching it. The engine's constructor and `Restart` require a window higher than the gap plus two tiles (`AgentSpec.WindowFits`) and starting-height draws in `0 .. windowH / 2 - 1`. Both `Step` methods require the spawn draw in `0 .. PipeDrawRange - 1` whenever the step spawns (`AgentSpec.DrawFits`, `HumanSpec.DrawFits`), and `Update` requires it of every draw. The engine's invariant keeps the draw range positive.
- The library values are parameters: `rand.Intn` results (`draw` and `draws`), the gopher image bounds (`gopherW` and `gopherH`), `ebiten.ActualTPS()` (`tps`) and `isKeyJustPressed()` (`key`).
- The root package's `gopher.go`, which `main.go` uses, is not part of this model. The human game uses the gopher of `game/gopher.go`. `game/pipe.go` and `game/base.go` are not part of this model either, and the engine uses `pipe.go` and `base.go`. `Passed` takes the plain x coordinate that `game/game.go` passes to it.
- Both `Game` classes hold their gophers, pipes and base as values (`GopherState`, `PipeState`, `BaseState`) that their methods replace, not as `Gopher`, `Pipe` and `Base` objects; the leaf classes are modelled on their own. In the engine, `pipes` and `pipesAhead` share the same `*Pipe` objects in the source. The model writes every change of a shared pipe to both lists and keeps `pipesAhead` a suffix of `pipes` as an invariant. Aliasing as such is not modelled. The human game shares no object between two containers, so nothing is lost there.
- Nothing in the visible code sets `dynamicSPU` to true. It is kept as a field, and both branches of `Update` are modelled.
- Gopher `x` is kept as a real that never changes, and `PosX` truncates it. float64 rounding is not modelled, because every value the model reaches is exact in float64.
- Go's `int` is 64 bits. Overflow of the counters (`stepID`, `score`) is not modelled: they grow by one per tick.
