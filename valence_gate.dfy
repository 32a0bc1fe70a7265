/**
 * The valence gate of the divine module: a fixed threshold, a test that
 * admits an action whose score reaches it, and a penalty proportional to
 * the shortfall of a refused score.
 */
module ValenceGates {

  /** `ValenceGate`; the threshold is set once and never written again. */
  datatype ValenceGate = ValenceGate(threshold: real)
  {
    /** `allow_action`: admitted exactly when no penalty is due. */
    function AllowAction(score: real): (ok: bool)
      ensures ok <==> ApplyPenalty(score) == 0.0
    {
      score >= threshold
    }

    /** `apply_penalty`: half the shortfall below the threshold, else nothing. */
    function ApplyPenalty(score: real): (p: real)
      ensures p >= 0.0
      ensures p == 0.0 <==> score >= threshold
      ensures score < threshold ==> p > 0.0 && p * 2.0 == threshold - score
    {
      if score < threshold then (threshold - score) * 0.5 else 0.0
    }
  }

  /** `ValenceGate::new`. */
  function NewGate(threshold: real): (g: ValenceGate)
    ensures g.threshold == threshold
    ensures g.AllowAction(threshold) && g.ApplyPenalty(threshold) == 0.0
  {
    ValenceGate(threshold)
  }

  /** A higher score is never refused where a lower one was admitted. */
  lemma AllowMonotone(g: ValenceGate, s1: real, s2: real)
    requires s1 <= s2 && g.AllowAction(s1)
    ensures g.AllowAction(s2)
  {
  }

  /** The penalty never grows as the score rises. */
  lemma PenaltyAntitone(g: ValenceGate, s1: real, s2: real)
    requires s1 <= s2
    ensures g.ApplyPenalty(s2) <= g.ApplyPenalty(s1)
  {
  }

  /** With threshold 0.75 a score of 0.85 passes and 0.60 does not. */
  lemma GateScenario()
    ensures NewGate(0.75).AllowAction(0.85)
    ensures !NewGate(0.75).AllowAction(0.60)
    ensures NewGate(0.75).ApplyPenalty(0.60) == 0.075
  {
  }
}
