/**
 * The parts of the game engine the gameplay systems rely on: entity handles
 * and the engine's countdown timer in its run-once mode, where ticking adds
 * the frame's delta, the elapsed time stops at the duration, and the timer
 * counts as finished from then on.
 */
module Engine {

  /** An entity handle; only its identity matters. */
  type Entity = nat

  /**
   * Bevy's `finished()` reads a flag that only `tick` sets; here a timer is
   * finished once its elapsed time reaches the duration. The two differ only
   * for a zero-length timer read before its first tick, which none of the
   * systems modelled here does: each ticks its timer before reading it.
   */
  datatype Timer = Timer(duration: real, elapsed: real)
  {
    ghost predicate Valid()
    {
      0.0 <= elapsed <= duration
    }

    /** `Timer::finished`: for a well-formed timer, the elapsed time has reached the duration exactly. */
    function Finished(): (done: bool)
      ensures Valid() ==> (done <==> elapsed == duration)
    {
      elapsed >= duration
    }

    /** `Timer::tick` in run-once mode; a finished timer stays as it is. */
    function Tick(delta: real): (t: Timer)
      requires delta >= 0.0
      ensures t.duration == duration
      ensures elapsed <= duration ==> t.elapsed <= duration
      ensures elapsed <= t.elapsed
      ensures t.Finished() <==> Finished() || elapsed + delta >= duration
    {
      if Finished() then this
      else if elapsed + delta >= duration then Timer(duration, duration)
      else Timer(duration, elapsed + delta)
    }
  }

  /** `Timer::from_seconds(seconds, TimerMode::Once)`. */
  function FromSeconds(seconds: real): (t: Timer)
    requires seconds >= 0.0
    ensures t.Valid() && t.duration == seconds && t.elapsed == 0.0
    ensures t.Finished() <==> seconds == 0.0
  {
    Timer(seconds, 0.0)
  }

  /** Ticking keeps a timer well formed. */
  lemma TickValid(t: Timer, delta: real)
    requires t.Valid() && delta >= 0.0
    ensures t.Tick(delta).Valid()
  {
  }

  /** Two ticks in a row are one tick of their sum. */
  lemma {:induction false} TickTwice(t: Timer, d1: real, d2: real)
    requires t.Valid() && d1 >= 0.0 && d2 >= 0.0
    ensures t.Tick(d1).Tick(d2) == t.Tick(d1 + d2)
  {
    if !t.Finished() && t.elapsed + d1 < t.duration {
      assert t.Tick(d1) == Timer(t.duration, t.elapsed + d1);
    }
  }
}
