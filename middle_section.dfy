/**
 * components/bento/middle-section.tsx: the two percentages of the landing
 * page, computed from the report and evidence counts.
 */
module MiddleSection {

  function Min(a: int, b: int): int { if a <= b then a else b }

  /** `Math.min(100, Math.floor(reportCount * 5))`: five points per report. */
  function ConfidenceScore(reportCount: nat): (r: nat)
    ensures r <= 100
    ensures r == 100 <==> reportCount >= 20
    ensures reportCount < 20 ==> r == 5 * reportCount
  {
    Min(100, reportCount * 5)
  }

  /** `Math.min(100, Math.floor(evidenceCount / 2))`: a point per two pieces
      of evidence. */
  function VerificationRate(evidenceCount: nat): (r: nat)
    ensures r <= 100
    ensures r == 100 <==> evidenceCount >= 200
    ensures evidenceCount < 200 ==> 2 * r <= evidenceCount < 2 * r + 2
  {
    Min(100, evidenceCount / 2)
  }

  /** More reports or more evidence never lower a percentage. */
  lemma Monotone(r1: nat, r2: nat, e1: nat, e2: nat)
    requires r1 <= r2 && e1 <= e2
    ensures ConfidenceScore(r1) <= ConfidenceScore(r2)
    ensures VerificationRate(e1) <= VerificationRate(e2)
  {
  }
}
