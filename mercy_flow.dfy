/**
 * Mercy flow: each frame an entity spends its need for the frame's
 * duration out of its mercy points, never more than it holds.
 */
module MercyFlow {

  /** The frame's allocation: need times the frame's seconds, capped by the points held. */
  function Allocation(need: real, mercyPoints: real, deltaSeconds: real): (alloc: real)
    ensures alloc <= mercyPoints && alloc <= need * deltaSeconds
    ensures alloc == mercyPoints || alloc == need * deltaSeconds
  {
    var wanted := need * deltaSeconds;
    if wanted < mercyPoints then wanted else mercyPoints
  }

  /** The points left after a frame: never negative, zero once the need exhausts them. */
  lemma AfterAllocation(need: real, mercyPoints: real, deltaSeconds: real)
    ensures mercyPoints - Allocation(need, mercyPoints, deltaSeconds) >= 0.0
    ensures need * deltaSeconds >= mercyPoints ==> mercyPoints - Allocation(need, mercyPoints, deltaSeconds) == 0.0
    ensures need * deltaSeconds <= mercyPoints ==>
      mercyPoints - Allocation(need, mercyPoints, deltaSeconds) == mercyPoints - need * deltaSeconds
  {
  }

  /** `mercy_flow_system`: each row is an entity's need and its mercy points. */
  method MercyFlowSystem(query: array<(real, real)>, deltaSeconds: real)
    modifies query
    ensures forall k :: 0 <= k < query.Length ==>
      query[k].0 == old(query[k]).0
      && query[k].1 == old(query[k]).1 - Allocation(old(query[k]).0, old(query[k]).1, deltaSeconds)
    ensures forall k :: 0 <= k < query.Length ==> query[k].1 >= 0.0
  {
    for k := 0 to query.Length
      invariant forall j :: 0 <= j < k ==>
        query[j].0 == old(query[j]).0
        && query[j].1 == old(query[j]).1 - Allocation(old(query[j]).0, old(query[j]).1, deltaSeconds)
      invariant forall j :: k <= j < query.Length ==> query[j] == old(query[j])
    {
      var (need, mp) := query[k];
      var wanted := need * deltaSeconds;
      var alloc := if wanted < mp then wanted else mp;
      query[k] := (need, mp - alloc);
    }
    forall k | 0 <= k < query.Length
      ensures query[k].1 >= 0.0
    {
      AfterAllocation(old(query[k]).0, old(query[k]).1, deltaSeconds);
    }
  }
}
