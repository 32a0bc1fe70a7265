/**
 * The resource-based economy: basic resources are replicated for anyone,
 * advanced items unlock once a player's grace reaches the item's threshold.
 */
module Rbe {

  type PlayerId = string

  /** The resources `RbeSystem::new` lists as always available. */
  const BASIC_RESOURCES: seq<string> := ["food", "water", "shelter", "energy", "basic_tools"]

  /** The unlock thresholds `RbeSystem::new` installs. */
  const ADVANCED_THRESHOLDS: map<string, nat> := map["custom_home" := 1000, "personal_vehicle" := 5000, "art_studio" := 2000]

  /** A player's grace, 0 without a record. */
  function GraceOf(grace: map<PlayerId, nat>, player: PlayerId): nat
  {
    if player in grace then grace[player] else 0
  }

  /** The grace table after `points` more for `player`. */
  function Accrue(grace: map<PlayerId, nat>, player: PlayerId, points: nat): (g: map<PlayerId, nat>)
    ensures g.Keys == grace.Keys + {player}
    ensures GraceOf(g, player) == GraceOf(grace, player) + points
    ensures forall p :: p != player ==> GraceOf(g, p) == GraceOf(grace, p)
  {
    grace[player := GraceOf(grace, player) + points]
  }

  /** `unlock_advanced` on the two tables: a known item, a recorded player, enough grace. */
  function Unlocks(grace: map<PlayerId, nat>, thresholds: map<string, nat>, player: PlayerId, item: string): (u: bool)
    ensures u ==> item in thresholds && GraceOf(grace, player) >= thresholds[item]
    ensures item in thresholds && thresholds[item] > 0 && GraceOf(grace, player) >= thresholds[item] ==> u
  {
    item in thresholds && player in grace && grace[player] >= thresholds[item]
  }

  /** More grace never relocks an item. */
  lemma UnlockSurvivesAccrual(grace: map<PlayerId, nat>, thresholds: map<string, nat>, player: PlayerId, item: string, other: PlayerId, points: nat)
    requires Unlocks(grace, thresholds, player, item)
    ensures Unlocks(Accrue(grace, other, points), thresholds, player, item)
  {
    assert GraceOf(Accrue(grace, other, points), player) >= GraceOf(grace, player);
  }

  /** Enough accrued grace unlocks an item however the player started. */
  lemma AccrualReachesThreshold(grace: map<PlayerId, nat>, player: PlayerId, item: string, points: nat)
    requires item in ADVANCED_THRESHOLDS && points >= ADVANCED_THRESHOLDS[item]
    ensures Unlocks(Accrue(grace, player, points), ADVANCED_THRESHOLDS, player, item)
  {
    assert GraceOf(Accrue(grace, player, points), player) >= points;
  }

  class RbeSystem {
    var gracePoints: map<PlayerId, nat>
    var basicResources: seq<string>
    var advancedThresholds: map<string, nat>

    /** The two tables are the ones `new` installs; no method writes them. */
    ghost predicate Valid()
      reads this
    {
      basicResources == BASIC_RESOURCES && advancedThresholds == ADVANCED_THRESHOLDS
    }

    /** `RbeSystem::new`. */
    constructor ()
      ensures Valid() && gracePoints == map[]
    {
      gracePoints := map[];
      basicResources := BASIC_RESOURCES;
      advancedThresholds := ADVANCED_THRESHOLDS;
    }

    /** `replicate_basic`: true for exactly the five basic resources. */
    function ReplicateBasic(resource: string): (ok: bool)
      requires Valid()
      reads this
      ensures ok <==> resource in {"food", "water", "shelter", "energy", "basic_tools"}
    {
      resource in basicResources
    }

    /** `add_grace`: the points accrue on the player's total, which starts at 0. */
    method AddGrace(player: PlayerId, points: nat)
      requires Valid()
      modifies this`gracePoints
      ensures Valid()
      ensures gracePoints == Accrue(old(gracePoints), player, points)
    {
      var current := if player in gracePoints then gracePoints[player] else 0;
      gracePoints := gracePoints[player := current + points];
    }

    /** `unlock_advanced`: refused for an unknown item or an unrecorded player. */
    function UnlockAdvanced(player: PlayerId, item: string): (ok: bool)
      requires Valid()
      reads this
      ensures item !in ADVANCED_THRESHOLDS ==> !ok
      ensures player !in gracePoints ==> !ok
      ensures item == "custom_home" ==> (ok <==> player in gracePoints && gracePoints[player] >= 1000)
      ensures item == "art_studio" ==> (ok <==> player in gracePoints && gracePoints[player] >= 2000)
      ensures item == "personal_vehicle" ==> (ok <==> player in gracePoints && gracePoints[player] >= 5000)
      ensures ok == Unlocks(gracePoints, ADVANCED_THRESHOLDS, player, item)
    {
      if item in advancedThresholds && player in gracePoints then
        gracePoints[player] >= advancedThresholds[item]
      else false
    }

    /** `grace_level`: the recorded points, or 0. */
    function GraceLevel(player: PlayerId): (g: nat)
      reads this
      ensures player !in gracePoints ==> g == 0
      ensures player in gracePoints ==> g == gracePoints[player]
    {
      if player in gracePoints then gracePoints[player] else 0
    }
  }

  /** The example game loop: food replicates, 500 grace does not open the art studio. */
  method ExampleUsage() returns (food: bool, studio: bool, eligible: bool)
    ensures food && !studio && !eligible
  {
    var rbe := new RbeSystem();
    food := rbe.ReplicateBasic("food");
    rbe.AddGrace("player_123", 500);
    studio := rbe.UnlockAdvanced("player_123", "art_studio");
    eligible := rbe.GraceLevel("player_123") > 2000;
  }
}
