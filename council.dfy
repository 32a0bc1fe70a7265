/**
 * The grace-aligned council: grace points and empathy scores per player,
 * proposals with weighted for/against tallies, and the election of the
 * players with the most grace.
 */
module Council {
  import opened Wrappers
  import opened Numerics

  type PlayerId = string
  type ProposalId = nat

  /** A proposal's description and its two running tallies. */
  datatype Proposal = Proposal(description: string, votesFor: nat, votesAgainst: nat)

  /** A player's grace, 0 when the player has none recorded. */
  function GraceOf(grace: map<PlayerId, nat>, player: PlayerId): nat
  {
    if player in grace then grace[player] else 0
  }

  /** A player's empathy, 1.0 when none is recorded. */
  function EmpathyOf(empathy: map<PlayerId, real>, player: PlayerId): real
  {
    if player in empathy then empathy[player] else 1.0
  }

  /**
   * The weight of a vote: grace scaled by 1 + empathy and truncated back to
   * an integer, so between the grace itself and twice it.
   */
  function Weight(grace: nat, empathy: real): (w: nat)
    ensures empathy >= -1.0 ==> (w as real) <= (grace as real) * (1.0 + empathy) < (w as real) + 1.0
    ensures 0.0 <= empathy <= 1.0 ==> grace <= w <= 2 * grace
    ensures empathy == 0.0 ==> w == grace
    ensures empathy == 1.0 ==> w == 2 * grace
    ensures grace == 0 ==> w == 0
  {
    var x := (grace as real) * (1.0 + empathy);
    ScaledGraceBetween(grace, empathy);
    AsUnsignedBetween(x, grace, 2 * grace);
    ScaledGraceNonNegative(grace, empathy);
    AsUnsigned(x)
  }

  lemma ScaledGraceNonNegative(grace: nat, empathy: real)
    ensures empathy >= -1.0 ==> 0.0 <= (grace as real) * (1.0 + empathy)
  {
    if empathy >= -1.0 {
      var g, f := grace as real, 1.0 + empathy;
      assert 0.0 <= g && 0.0 <= f;
      assert 0.0 <= g * f;
    }
  }

  lemma ScaledGraceBetween(grace: nat, empathy: real)
    ensures 0.0 <= empathy <= 1.0 ==> grace as real <= (grace as real) * (1.0 + empathy) <= (2 * grace) as real
  {
    if 0.0 <= empathy <= 1.0 {
      var g := grace as real;
      assert g * (1.0 + empathy) == g + g * empathy;
      assert 0.0 <= g * empathy;
      assert g * (1.0 - empathy) >= 0.0;
    }
  }

  /** The weights of the example council's three voters. */
  lemma ExampleWeights()
    ensures Weight(5000, 0.9) == 9500
    ensures Weight(3000, 0.5) == 4500
    ensures Weight(8000, 1.0) == 16000
  {
  }

  /** The player ids in `rest` with the most grace exist whenever `rest` is non-empty. */
  lemma {:induction false} MostGraceExists(grace: map<PlayerId, nat>, rest: set<PlayerId>)
    requires rest != {} && rest <= grace.Keys
    ensures exists x :: x in rest && forall y :: y in rest ==> grace[y] <= grace[x]
    decreases |rest|
  {
    var z :| z in rest;
    if rest != {z} {
      MostGraceExists(grace, rest - {z});
      var x :| x in rest - {z} && forall y :: y in rest - {z} ==> grace[y] <= grace[x];
      if grace[z] > grace[x] {
        assert forall y :: y in rest ==> grace[y] <= grace[z];
      } else {
        assert forall y :: y in rest ==> grace[y] <= grace[x];
      }
    } else {
      assert forall y :: y in rest ==> y == z;
    }
  }

  /** Highest grace first, each player once, every member outranking every non-member. */
  ghost predicate ElectedFrom(grace: map<PlayerId, nat>, members: seq<PlayerId>)
  {
    && (forall i :: 0 <= i < |members| ==> members[i] in grace)
    && (forall i, j :: 0 <= i < j < |members| ==> members[i] != members[j])
    && (forall i, j :: 0 <= i < j < |members| ==> grace[members[i]] >= grace[members[j]])
    && (forall i, p :: 0 <= i < |members| && p in grace && p !in members ==> grace[members[i]] >= grace[p])
  }

  class CouncilSystem {
    var gracePoints: map<PlayerId, nat>
    var empathyScore: map<PlayerId, real>
    var proposals: map<ProposalId, Proposal>
    var councilMembers: seq<PlayerId>
    var nextProposalId: ProposalId

    /** Empathy scores are in [0, 1]; every proposal id was issued before the counter. */
    ghost predicate Valid()
      reads this
    {
      && (forall p :: p in empathyScore ==> 0.0 <= empathyScore[p] <= 1.0)
      && (forall id :: id in proposals ==> 1 <= id < nextProposalId)
      && nextProposalId >= 1
    }

    /** `CouncilSystem::new`: nothing recorded, proposal ids start at 1. */
    constructor ()
      ensures Valid()
      ensures gracePoints == map[] && empathyScore == map[] && proposals == map[]
      ensures councilMembers == [] && nextProposalId == 1
    {
      gracePoints := map[];
      empathyScore := map[];
      proposals := map[];
      councilMembers := [];
      nextProposalId := 1;
    }

    /** `add_grace`: the points join the player's total, which starts at 0. */
    method AddGrace(player: PlayerId, points: nat)
      modifies this`gracePoints
      ensures gracePoints == old(gracePoints)[player := GraceOf(old(gracePoints), player) + points]
    {
      var current := if player in gracePoints then gracePoints[player] else 0;
      gracePoints := gracePoints[player := current + points];
    }

    /** `set_empathy`: the score is stored clamped to [0, 1]. */
    method SetEmpathy(player: PlayerId, score: real)
      requires Valid()
      modifies this`empathyScore
      ensures Valid()
      ensures empathyScore == old(empathyScore)[player := Clamp(score, 0.0, 1.0)]
    {
      empathyScore := empathyScore[player := Clamp(score, 0.0, 1.0)];
    }

    /**
     * `voting_weight`: the truncated product of the player's grace and 1 plus
     * the player's empathy; an unknown player weighs 0, a known one between
     * grace and twice it.
     */
    function VotingWeight(player: PlayerId): (w: nat)
      requires Valid()
      reads this
      ensures w == Weight(GraceOf(gracePoints, player), EmpathyOf(empathyScore, player))
      ensures player !in gracePoints ==> w == 0
      ensures GraceOf(gracePoints, player) <= w <= 2 * GraceOf(gracePoints, player)
      ensures player !in empathyScore ==> w == 2 * GraceOf(gracePoints, player)
    {
      Weight(GraceOf(gracePoints, player), EmpathyOf(empathyScore, player))
    }

    /** `submit_proposal`: a new id, unused before, with empty tallies. */
    method SubmitProposal(description: string) returns (id: ProposalId)
      requires Valid()
      modifies this`proposals, this`nextProposalId
      ensures Valid()
      ensures id == old(nextProposalId) && id !in old(proposals)
      ensures proposals == old(proposals)[id := Proposal(description, 0, 0)]
      ensures nextProposalId == old(nextProposalId) + 1
    {
      id := nextProposalId;
      proposals := proposals[id := Proposal(description, 0, 0)];
      nextProposalId := nextProposalId + 1;
    }

    /** `vote`: the voter's weight goes to exactly one side of a known proposal. */
    method Vote(player: PlayerId, proposalId: ProposalId, inFavor: bool)
      requires Valid()
      modifies this`proposals
      ensures Valid()
      ensures proposalId !in old(proposals) ==> proposals == old(proposals)
      ensures proposalId in old(proposals) ==>
        var p := old(proposals)[proposalId];
        var w := VotingWeight(player);
        proposals == old(proposals)[proposalId :=
          if inFavor then p.(votesFor := p.votesFor + w) else p.(votesAgainst := p.votesAgainst + w)]
    {
      if proposalId in proposals {
        var p := proposals[proposalId];
        var weight := VotingWeight(player);
        if inFavor {
          proposals := proposals[proposalId := p.(votesFor := p.votesFor + weight)];
        } else {
          proposals := proposals[proposalId := p.(votesAgainst := p.votesAgainst + weight)];
        }
      }
    }

    /** `resolve_proposal`: passed, rejected, or undecided on a tie or an unknown id. */
    function ResolveProposal(proposalId: ProposalId): (r: Option<bool>)
      reads this
      ensures r == Some(true) <==> proposalId in proposals && proposals[proposalId].votesFor > proposals[proposalId].votesAgainst
      ensures r == Some(false) <==> proposalId in proposals && proposals[proposalId].votesAgainst > proposals[proposalId].votesFor
      ensures r == None <==> proposalId !in proposals || proposals[proposalId].votesFor == proposals[proposalId].votesAgainst
    {
      if proposalId in proposals then
        var p := proposals[proposalId];
        if p.votesFor > p.votesAgainst then Some(true)
        else if p.votesAgainst > p.votesFor then Some(false)
        else None
      else None
    }

    /**
     * `elect_council`: the `seats` players with the most grace, highest
     * first. Players with equal grace are taken in an unspecified order, as
     * the source's order among them is that of a hash map.
     */
    method ElectCouncil(seats: nat)
      modifies this`councilMembers
      ensures |councilMembers| == if seats < |gracePoints| then seats else |gracePoints|
      ensures ElectedFrom(gracePoints, councilMembers)
    {
      var members: seq<PlayerId> := [];
      var rest := gracePoints.Keys;
      while |members| < seats && rest != {}
        invariant rest <= gracePoints.Keys
        invariant forall i :: 0 <= i < |members| ==> members[i] in gracePoints && members[i] !in rest
        invariant forall p :: p in gracePoints ==> p in rest || p in members
        invariant |members| + |rest| == |gracePoints|
        invariant |members| <= seats
        invariant forall i, j :: 0 <= i < j < |members| ==> members[i] != members[j]
        invariant forall i, j :: 0 <= i < j < |members| ==> gracePoints[members[i]] >= gracePoints[members[j]]
        invariant forall i, p :: 0 <= i < |members| && p in rest ==> gracePoints[members[i]] >= gracePoints[p]
        decreases |rest|
      {
        MostGraceExists(gracePoints, rest);
        var top :| top in rest && forall y :: y in rest ==> gracePoints[y] <= gracePoints[top];
        members := members + [top];
        rest := rest - {top};
      }
      councilMembers := members;
    }
  }
}
