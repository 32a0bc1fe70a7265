/**
 * Boss phases: when the phase timer runs out the boss enters the next
 * phase with half again as much maximum health, fully healed, a phase-change
 * event is sent and a fresh 60-second timer starts; each phase number is
 * announced with its effect.
 */
module Bosses {
  import opened Wrappers
  import opened Engine

  const PHASE_SECONDS: real := 60.0
  const HEALTH_GROWTH: real := 1.5

  datatype Boss = Boss(health: real, maxHealth: real, phase: nat, phaseTimer: Timer)

  /** One boss's frame: the boss afterwards and the phase-change event it sent, if any. */
  function PhaseStep(b: Boss, delta: real): (r: (Boss, Option<nat>))
    requires delta >= 0.0
    ensures !b.phaseTimer.Tick(delta).Finished() ==>
      r.1 == None && r.0 == b.(phaseTimer := b.phaseTimer.Tick(delta))
    ensures b.phaseTimer.Tick(delta).Finished() ==>
      && r.0.phase == b.phase + 1
      && r.0.maxHealth == b.maxHealth * HEALTH_GROWTH
      && r.0.health == r.0.maxHealth
      && r.1 == Some(r.0.phase)
      && r.0.phaseTimer == FromSeconds(PHASE_SECONDS)
    ensures r.0.phase >= b.phase
    ensures r.1.Some? <==> r.0.phase == b.phase + 1
  {
    var timer := b.phaseTimer.Tick(delta);
    if timer.Finished() then
      var next := Boss(b.maxHealth * HEALTH_GROWTH, b.maxHealth * HEALTH_GROWTH, b.phase + 1, FromSeconds(PHASE_SECONDS));
      (next, Some(next.phase))
    else (b.(phaseTimer := timer), None)
  }

  /** After a phase change the new timer is 60 s away from finishing again. */
  lemma NewPhaseTimerFresh(b: Boss, delta: real, later: real)
    requires delta >= 0.0 && 0.0 <= later < PHASE_SECONDS
    requires b.phaseTimer.Tick(delta).Finished()
    ensures !PhaseStep(b, delta).0.phaseTimer.Tick(later).Finished()
  {
  }

  /** The effect `boss_phase_effects` announces for a phase number. */
  datatype PhaseEffect = MercyWave | LatticeStorm | EternalBloom

  function PhaseEffectOf(phase: nat): (e: PhaseEffect)
    ensures e == MercyWave <==> phase == 1
    ensures e == LatticeStorm <==> phase == 2
    ensures e == EternalBloom <==> phase != 1 && phase != 2
  {
    match phase
    case 1 => MercyWave
    case 2 => LatticeStorm
    case _ => EternalBloom
  }

  /** `boss_phase_effects`: one announcement per event, in order. */
  function PhaseEffects(events: seq<nat>): (effects: seq<PhaseEffect>)
    ensures |effects| == |events|
    ensures forall k :: 0 <= k < |events| ==> effects[k] == PhaseEffectOf(events[k])
  {
    seq(|events|, k requires 0 <= k < |events| => PhaseEffectOf(events[k]))
  }

  /**
   * `boss_phase_system`: every boss in the query steps; the events sent are
   * returned in query order.
   */
  method BossPhaseSystem(bosses: array<Boss>, delta: real) returns (events: seq<nat>)
    requires delta >= 0.0
    modifies bosses
    ensures forall k :: 0 <= k < bosses.Length ==> bosses[k] == PhaseStep(old(bosses[k]), delta).0
    ensures events == PhaseEvents(old(bosses[..]), delta)
  {
    ghost var b0 := bosses[..];
    events := [];
    for k := 0 to bosses.Length
      invariant forall j :: 0 <= j < k ==> bosses[j] == PhaseStep(b0[j], delta).0
      invariant forall j :: k <= j < bosses.Length ==> bosses[j] == b0[j]
      invariant events == PhaseEvents(b0[..k], delta)
    {
      assert b0[..k + 1][..k] == b0[..k];
      var boss := bosses[k];
      boss := boss.(phaseTimer := boss.phaseTimer.Tick(delta));
      if boss.phaseTimer.Finished() {
        boss := boss.(phase := boss.phase + 1);
        boss := boss.(maxHealth := boss.maxHealth * HEALTH_GROWTH);
        boss := boss.(health := boss.maxHealth);
        events := events + [boss.phase];
        boss := boss.(phaseTimer := FromSeconds(PHASE_SECONDS));
      }
      bosses[k] := boss;
    }
    assert b0[..bosses.Length] == b0;
  }

  /** The phase-change events a frame sends, in query order. */
  function PhaseEvents(bosses: seq<Boss>, delta: real): (events: seq<nat>)
    requires delta >= 0.0
    ensures |events| <= |bosses|
    decreases |bosses|
  {
    if bosses == [] then []
    else
      var rest := PhaseEvents(bosses[..|bosses| - 1], delta);
      match PhaseStep(bosses[|bosses| - 1], delta).1
      case Some(p) => rest + [p]
      case None => rest
  }

  /** Boss `i` of the frame announced `phase`, the one past its old phase. */
  predicate EnteredBy(bosses: seq<Boss>, i: int, delta: real, phase: nat)
    requires delta >= 0.0
  {
    && 0 <= i < |bosses|
    && PhaseStep(bosses[i], delta).1 == Some(phase)
    && phase == PhaseStep(bosses[i], delta).0.phase == bosses[i].phase + 1
  }

  /**
   * Every event announces the phase some boss of the frame has just entered,
   * one past the phase it had, and so never phase 0.
   */
  lemma {:induction false} PhaseEventsPositive(bosses: seq<Boss>, delta: real)
    requires delta >= 0.0
    ensures forall k :: 0 <= k < |PhaseEvents(bosses, delta)| ==>
      && PhaseEvents(bosses, delta)[k] >= 1
      && exists i :: EnteredBy(bosses, i, delta, PhaseEvents(bosses, delta)[k])
    decreases |bosses|
  {
    if bosses != [] {
      var init := bosses[..|bosses| - 1];
      PhaseEventsPositive(init, delta);
      var rest := PhaseEvents(init, delta);
      var events := PhaseEvents(bosses, delta);
      forall k | 0 <= k < |events|
        ensures exists i :: EnteredBy(bosses, i, delta, events[k])
      {
        if k < |rest| {
          assert events[k] == rest[k];
          var i :| EnteredBy(init, i, delta, rest[k]);
          assert init[i] == bosses[i];
          assert EnteredBy(bosses, i, delta, events[k]);
        } else {
          assert EnteredBy(bosses, |bosses| - 1, delta, events[k]);
        }
      }
    }
  }
}
