/**
 * Combat: an attack costs its target ten health, and a target brought to
 * zero or below respawns at full health with fifty more shield; shields
 * regenerate at twenty per second up to 100.
 */
module Combat {
  import opened Engine

  const ATTACK_DAMAGE: real := 10.0
  const RESPAWN_SHIELD_BONUS: real := 50.0
  const SHIELD_REGEN_PER_SECOND: real := 20.0
  const SHIELD_CAP: real := 100.0

  datatype CombatPlayer = CombatPlayer(health: real, maxHealth: real, mercyShield: real, damageCooldown: Timer)

  /** `CombatAttack(attacker, target)`. */
  datatype CombatAttack = CombatAttack(attacker: Entity, target: Entity)

  /** The target's record after one hit. */
  function Hit(p: CombatPlayer): (r: CombatPlayer)
    ensures r.maxHealth == p.maxHealth && r.damageCooldown == p.damageCooldown
    ensures p.health - ATTACK_DAMAGE > 0.0 ==> r.health == p.health - ATTACK_DAMAGE && r.mercyShield == p.mercyShield
    ensures p.health - ATTACK_DAMAGE <= 0.0 ==> r.health == p.maxHealth && r.mercyShield == p.mercyShield + RESPAWN_SHIELD_BONUS
    ensures p.maxHealth > 0.0 ==> r.health > 0.0
  {
    var health := p.health - ATTACK_DAMAGE;
    if health <= 0.0 then p.(health := p.maxHealth, mercyShield := p.mercyShield + RESPAWN_SHIELD_BONUS)
    else p.(health := health)
  }

  /** One attack event: only the target, when it is a combat player, changes. */
  function Attack(players: map<Entity, CombatPlayer>, ev: CombatAttack): (r: map<Entity, CombatPlayer>)
    ensures r.Keys == players.Keys
    ensures forall e :: e in players && e != ev.target ==> r[e] == players[e]
    ensures ev.target in players ==> r[ev.target] == Hit(players[ev.target])
  {
    if ev.target in players then players[ev.target := Hit(players[ev.target])] else players
  }

  function AttackAll(players: map<Entity, CombatPlayer>, events: seq<CombatAttack>): (r: map<Entity, CombatPlayer>)
    ensures r.Keys == players.Keys
    decreases |events|
  {
    if events == [] then players else Attack(AttackAll(players, events[..|events| - 1]), events[|events| - 1])
  }

  /** A player with positive maximum health is alive after any sequence of attacks. */
  lemma {:induction false} AttacksNeverKill(players: map<Entity, CombatPlayer>, events: seq<CombatAttack>, e: Entity)
    requires e in players && players[e].health > 0.0
    requires players[e].maxHealth > 0.0
    ensures AttackAll(players, events)[e].health > 0.0
    ensures AttackAll(players, events)[e].maxHealth == players[e].maxHealth
    decreases |events|
  {
    if events != [] {
      AttacksNeverKill(players, events[..|events| - 1], e);
    }
  }

  /** A player never targeted keeps its record, attacker or not. */
  lemma {:induction false} UntargetedUnchanged(players: map<Entity, CombatPlayer>, events: seq<CombatAttack>, e: Entity)
    requires e in players
    requires forall k :: 0 <= k < |events| ==> events[k].target != e
    ensures AttackAll(players, events)[e] == players[e]
    decreases |events|
  {
    if events != [] {
      UntargetedUnchanged(players, events[..|events| - 1], e);
    }
  }

  /** One frame of `mercy_shield_system` for one player. */
  function Regenerate(p: CombatPlayer, deltaSeconds: real): (r: CombatPlayer)
    ensures r.mercyShield <= SHIELD_CAP
    ensures deltaSeconds >= 0.0 && p.mercyShield <= SHIELD_CAP ==> r.mercyShield >= p.mercyShield
    ensures p.mercyShield + deltaSeconds * SHIELD_REGEN_PER_SECOND <= SHIELD_CAP ==>
      r.mercyShield == p.mercyShield + deltaSeconds * SHIELD_REGEN_PER_SECOND
    ensures p.mercyShield + deltaSeconds * SHIELD_REGEN_PER_SECOND >= SHIELD_CAP ==> r.mercyShield == SHIELD_CAP
    ensures r.health == p.health && r.maxHealth == p.maxHealth && r.damageCooldown == p.damageCooldown
  {
    var shield := p.mercyShield + deltaSeconds * SHIELD_REGEN_PER_SECOND;
    p.(mercyShield := if shield < SHIELD_CAP then shield else SHIELD_CAP)
  }

  class CombatWorld {
    var players: map<Entity, CombatPlayer>

    /** `combat_attack_system`. */
    method CombatAttackSystem(events: seq<CombatAttack>)
      modifies this
      ensures players == AttackAll(old(players), events)
    {
      ghost var p0 := players;
      for i := 0 to |events|
        invariant players == AttackAll(p0, events[..i])
      {
        var ev := events[i];
        assert events[..i + 1][..i] == events[..i];
        if ev.target in players {
          var target := players[ev.target];
          target := target.(health := target.health - ATTACK_DAMAGE);
          if target.health <= 0.0 {
            target := target.(health := target.maxHealth);
            target := target.(mercyShield := target.mercyShield + RESPAWN_SHIELD_BONUS);
          }
          players := players[ev.target := target];
        }
      }
      assert events[..|events|] == events;
    }

    /** `mercy_shield_system`: every combat player regenerates. */
    method MercyShieldSystem(deltaSeconds: real)
      modifies this
      ensures players.Keys == old(players).Keys
      ensures forall e :: e in players ==> players[e] == Regenerate(old(players)[e], deltaSeconds)
    {
      var remaining := players.Keys;
      while remaining != {}
        invariant remaining <= players.Keys == old(players).Keys
        invariant forall e :: e in players && e !in remaining ==> players[e] == Regenerate(old(players)[e], deltaSeconds)
        invariant forall e :: e in remaining ==> players[e] == old(players)[e]
        decreases remaining
      {
        var e :| e in remaining;
        var player := players[e];
        player := player.(mercyShield := player.mercyShield + deltaSeconds * SHIELD_REGEN_PER_SECOND);
        player := player.(mercyShield := if player.mercyShield < SHIELD_CAP then player.mercyShield else SHIELD_CAP);
        players := players[e := player];
        remaining := remaining - {e};
      }
    }
  }
}
