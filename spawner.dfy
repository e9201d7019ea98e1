/**
 * The pipe spawner shared by both games: a countdown that is reloaded with
 * the spawn delay whenever it has run out, and then always decremented
 * (`SpawnPipe` in game/game.go, and the same lines inlined in main.go).
 */
module Spawning {

  /** A pipe is appended in a tick that starts with the timer at or below zero. */
  predicate Spawns(timer: int)
  {
    timer <= 0
  }

  /** The timer after one tick. */
  function NextTimer(timer: int, delay: int): (t: int)
    ensures Spawns(timer) ==> t == delay - 1
    ensures !Spawns(timer) ==> t == timer - 1
  {
    (if Spawns(timer) then delay else timer) - 1
  }

  /** The timer after `n` ticks. */
  function TimerAfter(timer: int, delay: int, n: nat): int
  {
    if n == 0 then timer else NextTimer(TimerAfter(timer, delay, n - 1), delay)
  }

  /** From a timer in `0 .. delay - 1` the timer stays in that range. */
  lemma TimerStaysInRange(timer: int, delay: int)
    requires 1 <= delay && 0 <= timer < delay
    ensures 0 <= NextTimer(timer, delay) < delay
  {
  }

  /**
   * Closed form of the countdown: it first runs down to zero, then cycles
   * through `delay - 1, ..., 0`.
   */
  lemma {:induction false} TimerClosedForm(timer: int, delay: int, n: nat)
    requires 1 <= delay && 0 <= timer < delay
    ensures TimerAfter(timer, delay, n) == if n <= timer then timer - n else (delay - 1) - (n - timer - 1) % delay
  {
    if n > 0 {
      TimerClosedForm(timer, delay, n - 1);
      var prev := TimerAfter(timer, delay, n - 1);
      if n - 1 == timer {
        ModUnique(0, delay, 0, 0);
        assert prev == 0;
      } else if n - 1 > timer {
        var a: nat := n - timer - 2;
        var r := a % delay;
        assert 0 <= r < delay;
        assert prev == (delay - 1) - r;
        ModSucc(a, delay);
        assert a + 1 == n - timer - 1;
      }
    }
  }

  /**
   * Tick `n` (counting from 0) spawns exactly when `n` is `timer` plus a
   * multiple of the delay.
   */
  lemma SpawnsPeriodically(timer: int, delay: int, n: nat)
    requires 1 <= delay && 0 <= timer < delay
    ensures Spawns(TimerAfter(timer, delay, n)) <==> n >= timer && (n - timer) % delay == 0
  {
    TimerClosedForm(timer, delay, n);
    if n == timer {
      ModUnique(0, delay, 0, 0);
    } else if n > timer {
      var a: nat := n - timer - 1;
      var r := a % delay;
      assert 0 <= r < delay;
      ModSucc(a, delay);
      assert TimerAfter(timer, delay, n) == (delay - 1) - r;
    }
  }

  /** From a fresh timer of zero (after a restart) a pipe is spawned every `delay` ticks, starting at once. */
  lemma SpawnsEveryDelay(delay: int, n: nat)
    requires 1 <= delay
    ensures Spawns(TimerAfter(0, delay, n)) <==> n % delay == 0
  {
    SpawnsPeriodically(0, delay, n);
  }

  lemma {:induction false} MulAtLeast(k: int, d: int)
    requires k >= 1 && d > 0
    ensures k * d >= d
    decreases k
  {
    if k > 1 {
      MulAtLeast(k - 1, d);
      assert k * d == (k - 1) * d + d;
    }
  }

  /** Euclidean remainder is determined by any decomposition `q * d + r`. */
  lemma ModUnique(a: int, d: int, q: int, r: int)
    requires d > 0 && a == q * d + r && 0 <= r < d
    ensures a % d == r
  {
    var q', r' := a / d, a % d;
    assert a == q' * d + r';
    var k := q - q';
    assert k * d == r' - r;
    if k >= 1 { MulAtLeast(k, d); }
    else if k <= -1 { MulAtLeast(-k, d); }
  }

  lemma ModSucc(a: nat, d: int)
    requires d > 0
    ensures (a + 1) % d == if a % d == d - 1 then 0 else a % d + 1
  {
    var q, r := a / d, a % d;
    assert a == q * d + r;
    if r == d - 1 {
      ModUnique(a + 1, d, q + 1, 0);
    } else {
      ModUnique(a + 1, d, q, r + 1);
    }
  }
}
