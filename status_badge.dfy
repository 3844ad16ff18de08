/**
 * components/badge/status-badge.tsx: the one badge a profile gets, by
 * precedence cheater, banned, suspicious score, active.
 */
module StatusBadge {

  datatype Badge = Badge(variant: string, name: string)

  /** The score from which a profile counts as suspicious. */
  const SuspiciousFrom := 70

  /** `getStatusBadge`. */
  function StatusBadge(isCheater: bool, banStatus: bool, suspiciousScore: int): (r: Badge)
    ensures r.name == "Cheater" <==> isCheater
    ensures r.name == "Banned" <==> !isCheater && banStatus
    ensures r.name == "Suspicious" <==> !isCheater && !banStatus && suspiciousScore >= SuspiciousFrom
    ensures r.name == "Active" <==> !isCheater && !banStatus && suspiciousScore < SuspiciousFrom
  {
    if isCheater then Badge("warning", "Cheater")
    else if banStatus then Badge("banned", "Banned")
    else if suspiciousScore >= SuspiciousFrom then Badge("outline", "Suspicious")
    else Badge("secondary", "Active")
  }

  /** Each label comes with its own variant, so the variant alone tells the
      badge. */
  lemma VariantDeterminesLabel(c1: bool, b1: bool, s1: int, c2: bool, b2: bool, s2: int)
    requires StatusBadge(c1, b1, s1).variant == StatusBadge(c2, b2, s2).variant
    ensures StatusBadge(c1, b1, s1) == StatusBadge(c2, b2, s2)
  {
  }
}
