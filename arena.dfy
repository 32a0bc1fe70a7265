/**
 * Arena duels: both duellists lose ten shield, and a shield brought to zero
 * or below is restored to 100; health is never touched.
 */
module Arena {
  import opened Engine

  const DUEL_SHIELD_COST: real := 10.0
  const SHIELD_RESTORE: real := 100.0

  datatype ArenaPlayer = ArenaPlayer(health: real, mercyShield: real)

  /** `ArenaDuelEvent(player1, player2)`. */
  datatype ArenaDuelEvent = ArenaDuelEvent(first: Entity, second: Entity)

  function Drain(p: ArenaPlayer): ArenaPlayer
  {
    p.(mercyShield := p.mercyShield - DUEL_SHIELD_COST)
  }

  function Restore(p: ArenaPlayer): ArenaPlayer
  {
    if p.mercyShield <= 0.0 then p.(mercyShield := SHIELD_RESTORE) else p
  }

  /**
   * One duel, the four steps in program order on the records they name; a
   * player duelling itself is drained twice and then restored.
   */
  function Duel(players: map<Entity, ArenaPlayer>, ev: ArenaDuelEvent): (r: map<Entity, ArenaPlayer>)
    ensures r.Keys == players.Keys
    ensures forall e :: e in players ==> r[e].health == players[e].health
    ensures !(ev.first in players && ev.second in players) ==> r == players
    ensures ev.first in players && ev.second in players ==> r[ev.first].mercyShield > 0.0 && r[ev.second].mercyShield > 0.0
    ensures forall e :: e in players && e != ev.first && e != ev.second ==> r[e] == players[e]
  {
    if ev.first in players && ev.second in players then
      var drained1 := players[ev.first := Drain(players[ev.first])];
      var drained2 := drained1[ev.second := Drain(drained1[ev.second])];
      var restored1 := drained2[ev.first := Restore(drained2[ev.first])];
      restored1[ev.second := Restore(restored1[ev.second])]
    else players
  }

  /** Between two distinct players each loses exactly ten shield unless that empties it. */
  lemma DuelShields(players: map<Entity, ArenaPlayer>, ev: ArenaDuelEvent)
    requires ev.first in players && ev.second in players && ev.first != ev.second
    ensures var s1 := players[ev.first].mercyShield - DUEL_SHIELD_COST;
      var s2 := players[ev.second].mercyShield - DUEL_SHIELD_COST;
      && Duel(players, ev)[ev.first].mercyShield == (if s1 <= 0.0 then SHIELD_RESTORE else s1)
      && Duel(players, ev)[ev.second].mercyShield == (if s2 <= 0.0 then SHIELD_RESTORE else s2)
  {
  }

  function DuelAll(players: map<Entity, ArenaPlayer>, events: seq<ArenaDuelEvent>): (r: map<Entity, ArenaPlayer>)
    ensures r.Keys == players.Keys
    decreases |events|
  {
    if events == [] then players else Duel(DuelAll(players, events[..|events| - 1]), events[|events| - 1])
  }

  /** No sequence of duels changes any player's health. */
  lemma {:induction false} DuelsKeepHealth(players: map<Entity, ArenaPlayer>, events: seq<ArenaDuelEvent>)
    ensures forall e :: e in players ==> DuelAll(players, events)[e].health == players[e].health
    decreases |events|
  {
    if events != [] {
      DuelsKeepHealth(players, events[..|events| - 1]);
    }
  }

  class ArenaWorld {
    var players: map<Entity, ArenaPlayer>

    /** `arena_duel_system`. */
    method ArenaDuelSystem(events: seq<ArenaDuelEvent>)
      modifies this
      ensures players == DuelAll(old(players), events)
    {
      ghost var p0 := players;
      for i := 0 to |events|
        invariant players == DuelAll(p0, events[..i])
      {
        assert events[..i + 1][..i] == events[..i];
        DuelOnce(events[i]);
      }
      assert events[..|events|] == events;
    }

    /** The body of the event loop: both records are looked up, drained, then restored. */
    method DuelOnce(ev: ArenaDuelEvent)
      modifies this
      ensures players == Duel(old(players), ev)
    {
      if ev.first in players && ev.second in players {
        players := players[ev.first := players[ev.first].(mercyShield := players[ev.first].mercyShield - DUEL_SHIELD_COST)];
        players := players[ev.second := players[ev.second].(mercyShield := players[ev.second].mercyShield - DUEL_SHIELD_COST)];
        if players[ev.first].mercyShield <= 0.0 {
          players := players[ev.first := players[ev.first].(mercyShield := SHIELD_RESTORE)];
        }
        if players[ev.second].mercyShield <= 0.0 {
          players := players[ev.second := players[ev.second].(mercyShield := SHIELD_RESTORE)];
        }
      }
    }
  }
}
