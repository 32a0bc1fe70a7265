/**
 * The mercy core's server-side gate: a client message is decoded, scored,
 * refused below valence 0.75, and otherwise answered with a serialized
 * valence proof followed by the original message bytes.
 *
 * Decoding (bincode), scoring (the soul's `compute_valence`) and proof
 * serialization are foreign code; each is a parameter returning `None` where
 * the foreign call returns an error.
 */
module MercyCores {
  import opened Wrappers
  import opened Protocol

  /** The valence below which `gate_server_message` refuses a message. */
  const GATE_VALENCE: real := 0.75

  /** `MercyCore`; the scoring soul is not part of the value (it is the scorer parameter). */
  datatype MercyCore = MercyCore(active: bool)
  {
    /** `is_active`: a core is active exactly in the state `new` leaves it in. */
    function IsActive(): (ok: bool)
      ensures ok <==> this == NewCore()
    {
      active
    }
  }

  /** `MercyCore::new`: a fresh core is active. */
  function NewCore(): (c: MercyCore)
    ensures c.active
  {
    MercyCore(true)
  }

  /** The ways `gate_server_message` fails, one per `?` and one for the gate. */
  datatype GateError =
    | DecodeFailed
    | ScoringFailed
    | Blocked(valence: real)
    | SerializeFailed

  /** `s` occurs in `text` at some position. */
  predicate Contains(text: string, s: string)
  {
    exists i :: 0 <= i <= |text| && s <= text[i..]
  }

  /**
   * The error text; `format` renders a valence with three decimals, and the
   * foreign errors keep their libraries' own texts.
   */
  function BlockedMessage(valence: real, format: real -> string): (m: string)
    ensures Contains(m, "valence")
    ensures |m| >= 20 && m[..20] == "Mercy gate blocked: "
  {
    var m := "Mercy gate blocked: valence " + format(valence);
    assert "valence" <= m[20..];
    m
  }

  /**
   * `gate_server_message`. The core is only read: the result is the whole
   * effect, and `active` is unchanged by construction.
   */
  function GateServerMessage(
    core: MercyCore,
    msg: seq<byte>,
    decode: seq<byte> -> Option<ClientMessage>,
    computeValence: ClientMessage -> Option<real>,
    serializeProof: real -> Option<seq<byte>>): (r: Result<seq<byte>, GateError>)
    ensures decode(msg).None? ==> r == Failure(DecodeFailed)
    ensures decode(msg).Some? && computeValence(decode(msg).value).None? ==> r == Failure(ScoringFailed)
    ensures decode(msg).Some? && computeValence(decode(msg).value).Some? ==>
      var v := computeValence(decode(msg).value).value;
      && (v < GATE_VALENCE ==> r == Failure(Blocked(v)))
      && (v >= GATE_VALENCE && serializeProof(v).None? ==> r == Failure(SerializeFailed))
    ensures r.Success? <==>
      && decode(msg).Some?
      && computeValence(decode(msg).value).Some?
      && computeValence(decode(msg).value).value >= GATE_VALENCE
      && serializeProof(computeValence(decode(msg).value).value).Some?
    ensures r.Success? ==>
      && |msg| <= |r.value|
      && r.value[|r.value| - |msg|..] == msg
      && r.value[..|r.value| - |msg|] == serializeProof(computeValence(decode(msg).value).value).value
  {
    match decode(msg)
    case None => Failure(DecodeFailed)
    case Some(decoded) =>
      match computeValence(decoded)
      case None => Failure(ScoringFailed)
      case Some(valence) =>
        if valence < GATE_VALENCE then Failure(Blocked(valence))
        else
          match serializeProof(valence)
          case None => Failure(SerializeFailed)
          case Some(proof) => Success(proof + msg)
  }

  /** Bytes that do not decode are refused before the scorer is consulted. */
  lemma DecodeBeforeScoring(
    core: MercyCore,
    msg: seq<byte>,
    decode: seq<byte> -> Option<ClientMessage>,
    scoreA: ClientMessage -> Option<real>,
    scoreB: ClientMessage -> Option<real>,
    serializeProof: real -> Option<seq<byte>>)
    requires decode(msg).None?
    ensures GateServerMessage(core, msg, decode, scoreA, serializeProof)
         == GateServerMessage(core, msg, decode, scoreB, serializeProof)
         == Failure(DecodeFailed)
  {
  }

  /** A refused message's error names the valence it was refused at. */
  lemma BlockedErrorMentionsValence(
    core: MercyCore,
    msg: seq<byte>,
    decode: seq<byte> -> Option<ClientMessage>,
    computeValence: ClientMessage -> Option<real>,
    serializeProof: real -> Option<seq<byte>>,
    format: real -> string)
    requires decode(msg).Some? && computeValence(decode(msg).value).Some?
    requires computeValence(decode(msg).value).value < GATE_VALENCE
    ensures var r := GateServerMessage(core, msg, decode, computeValence, serializeProof);
      r.Failure? && r.error.Blocked? && Contains(BlockedMessage(r.error.valence, format), "valence")
  {
  }

  /** The answer to an admitted message is independent of the core's flag. */
  lemma GateIgnoresActive(
    msg: seq<byte>,
    decode: seq<byte> -> Option<ClientMessage>,
    computeValence: ClientMessage -> Option<real>,
    serializeProof: real -> Option<seq<byte>>)
    ensures GateServerMessage(MercyCore(true), msg, decode, computeValence, serializeProof)
         == GateServerMessage(MercyCore(false), msg, decode, computeValence, serializeProof)
  {
  }
}
