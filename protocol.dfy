/**
 * The shared client/server protocol: the vector types that cross the wire,
 * the entity snapshot, the client message kinds and the per-kind mercy gate
 * that the server applies before processing a message.
 */
module Protocol {
  import opened Wrappers

  /** One byte of a frame or of a serialized message. */
  newtype byte = x: int | 0 <= x < 256

  /** The engine's vector (bevy's `Vec3`); floats are modelled as reals. */
  datatype Vec3 = Vec3(x: real, y: real, z: real)

  /** The serializable vector that crosses the wire. */
  datatype Vec3Ser = Vec3Ser(x: real, y: real, z: real)

  /** `From<Vec3> for Vec3Ser`: the wire form converts back to the same vector. */
  function ToSer(v: Vec3): (s: Vec3Ser)
    ensures FromSer(s) == v
  {
    Vec3Ser(v.x, v.y, v.z)
  }

  /** `From<Vec3Ser> for Vec3`: every coordinate is carried over. */
  function FromSer(s: Vec3Ser): (v: Vec3)
    ensures v.x == s.x && v.y == s.y && v.z == s.z
  {
    Vec3(s.x, s.y, s.z)
  }

  /** Converting to the wire form and back loses no coordinate. */
  lemma VecRoundTrip(v: Vec3)
    ensures FromSer(ToSer(v)) == v
    ensures ToSer(v).x == v.x && ToSer(v).y == v.y && ToSer(v).z == v.z
  {
  }

  /** The opposite round trip is the identity too. */
  lemma VecSerRoundTrip(s: Vec3Ser)
    ensures ToSer(FromSer(s)) == s
  {
  }

  /** The replicated view of one entity. */
  datatype EntitySnapshot = EntitySnapshot(
    id: nat,
    position: Vec3Ser,
    rotation: real,
    faction: string,
    valence: real,
    stateFlags: nat)

  /** Client-to-server messages, with their payloads. */
  datatype ClientMessage =
    | Move(direction: Vec3Ser, sprint: bool)
    | Interact(targetId: nat)
    | UseAbility(abilityId: nat, abilityTarget: Option<nat>)
    | Harvest(nodeId: nat)
    | Craft(recipeId: nat, count: nat)
    | TradeOffer(targetPlayerId: nat, offer: map<string, nat>, request: map<string, nat>)
    | Chat(channel: string, message: string)
    | FormAlliance(targetFaction: string, pactType: string)
    | BreakAlliance(pactId: string)
    | InvokeRitual(ritualType: string, context: map<string, string>)
    | ProgressRedemption(chainId: string, action: string)
    | DebugCommand(command: string)

  const RITUAL_VALENCE: real := 0.85
  const REDEMPTION_VALENCE: real := 0.70
  const TRADE_VALENCE: real := 0.60

  /**
   * `apply_mercy_gate`: a message is admitted exactly when its kind is
   * ungated or the valence meets the kind's threshold in the table.
   */
  function ApplyMercyGate(message: ClientMessage, valence: real): (admitted: bool)
    ensures admitted <==> (RequiredValence(message).None? || valence >= RequiredValence(message).value)
  {
    match message
    case InvokeRitual(_, _) => valence >= 0.85
    case ProgressRedemption(_, _) => valence >= 0.70
    case TradeOffer(_, _, _) => valence >= 0.60
    case _ => true
  }

  /**
   * The admission policy as a table: the least valence a message kind
   * needs, or None for a kind that is admitted unconditionally.
   */
  function RequiredValence(message: ClientMessage): (t: Option<real>)
    ensures t.Some? ==> TRADE_VALENCE <= t.value <= RITUAL_VALENCE
  {
    if message.InvokeRitual? then Some(RITUAL_VALENCE)
    else if message.ProgressRedemption? then Some(REDEMPTION_VALENCE)
    else if message.TradeOffer? then Some(TRADE_VALENCE)
    else None
  }

  /** Rituals are admitted iff valence >= 0.85, the boundary included. */
  lemma RitualThreshold(ritualType: string, context: map<string, string>, valence: real)
    ensures ApplyMercyGate(InvokeRitual(ritualType, context), valence) <==> valence >= 0.85
    ensures ApplyMercyGate(InvokeRitual(ritualType, context), 0.85)
  {
  }

  /** Redemption needs 0.70 and trade 0.60, boundaries included. */
  lemma RedemptionAndTradeThresholds(m: ClientMessage, valence: real)
    ensures m.ProgressRedemption? ==> (ApplyMercyGate(m, valence) <==> valence >= 0.70)
    ensures m.TradeOffer? ==> (ApplyMercyGate(m, valence) <==> valence >= 0.60)
  {
  }

  /** Every other kind is admitted at any valence, however low. */
  lemma OtherKindsAlwaysAdmitted(m: ClientMessage, valence: real)
    requires !m.InvokeRitual? && !m.ProgressRedemption? && !m.TradeOffer?
    ensures ApplyMercyGate(m, valence)
  {
  }

  /** Admission is monotone in the valence. */
  lemma GateMonotone(m: ClientMessage, v: real, v': real)
    requires ApplyMercyGate(m, v) && v <= v'
    ensures ApplyMercyGate(m, v')
  {
  }

  /** A valence that admits a ritual admits every other kind of message too. */
  lemma RitualAdmitsAll(ritual: ClientMessage, other: ClientMessage, v: real)
    requires ritual.InvokeRitual? && ApplyMercyGate(ritual, v)
    ensures ApplyMercyGate(other, v)
  {
  }
}
