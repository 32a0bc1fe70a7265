/**
 * Player levels: experience accrues at ten per second, and reaching the
 * threshold gains one level, resets the experience and raises the next
 * threshold by half.
 */
module Leveling {

  datatype PlayerLevel = PlayerLevel(level: nat, experience: real, expToNext: real)

  const EXP_PER_SECOND: real := 10.0
  const THRESHOLD_GROWTH: real := 1.5

  /** One frame of `leveling_system` for one player. */
  function Gain(p: PlayerLevel, deltaSeconds: real): (r: PlayerLevel)
    ensures r.level == p.level || r.level == p.level + 1
    ensures r.level == p.level + 1 <==> p.experience + deltaSeconds * EXP_PER_SECOND >= p.expToNext
    ensures r.level == p.level ==>
      r.experience == p.experience + deltaSeconds * EXP_PER_SECOND && r.experience < r.expToNext && r.expToNext == p.expToNext
    ensures r.level == p.level + 1 ==> r.experience == 0.0 && r.expToNext == p.expToNext * THRESHOLD_GROWTH
  {
    var experience := p.experience + deltaSeconds * EXP_PER_SECOND;
    if experience >= p.expToNext then PlayerLevel(p.level + 1, 0.0, p.expToNext * THRESHOLD_GROWTH)
    else p.(experience := experience)
  }

  /** With a positive threshold, a player is below it after every frame, and the threshold stays positive. */
  lemma GainKeepsBelowThreshold(p: PlayerLevel, deltaSeconds: real)
    requires p.expToNext > 0.0
    ensures 0.0 < Gain(p, deltaSeconds).expToNext
    ensures Gain(p, deltaSeconds).experience < Gain(p, deltaSeconds).expToNext
  {
  }

  /** The level after a run of frames, oldest first. */
  function GainAll(p: PlayerLevel, deltas: seq<real>): PlayerLevel
    decreases |deltas|
  {
    if deltas == [] then p else Gain(GainAll(p, deltas[..|deltas| - 1]), deltas[|deltas| - 1])
  }

  /** Over any run of frames the level never falls and rises by at most one per frame. */
  lemma {:induction false} LevelsPerFrame(p: PlayerLevel, deltas: seq<real>)
    ensures p.level <= GainAll(p, deltas).level <= p.level + |deltas|
    decreases |deltas|
  {
    if deltas != [] {
      LevelsPerFrame(p, deltas[..|deltas| - 1]);
    }
  }

  /** `leveling_system`. */
  method LevelingSystem(query: array<PlayerLevel>, deltaSeconds: real)
    modifies query
    ensures forall k :: 0 <= k < query.Length ==> query[k] == Gain(old(query[k]), deltaSeconds)
  {
    for k := 0 to query.Length
      invariant forall j :: 0 <= j < k ==> query[j] == Gain(old(query[j]), deltaSeconds)
      invariant forall j :: k <= j < query.Length ==> query[j] == old(query[j])
    {
      var level := query[k];
      level := level.(experience := level.experience + deltaSeconds * EXP_PER_SECOND);
      if level.experience >= level.expToNext {
        level := level.(level := level.level + 1);
        level := level.(experience := 0.0);
        level := level.(expToNext := level.expToNext * THRESHOLD_GROWTH);
      }
      query[k] := level;
    }
  }
}
