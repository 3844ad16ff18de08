/**
 * components/profiles/profile-header-background.tsx: the gradient and the
 * tiled pattern behind a profile header, chosen by the same precedence as
 * the status badge.
 */
module HeaderBackground {
  import opened Text
  import StatusBadge

  /** The gradient, by precedence cheater, banned, score from 70, else green. */
  function Gradient(isCheater: bool, banStatus: bool, suspiciousScore: int): string {
    if isCheater then "bg-gradient-to-t from-red-800 to-red-500/30"
    else if banStatus then "bg-gradient-to-t from-red-700 to-orange-600"
    else if suspiciousScore >= 70 then "bg-gradient-to-t from-orange-600 to-yellow-500"
    else "bg-gradient-to-t from-green-600 to-green-400"
  }

  /** The pattern image, by the same precedence. */
  function Pattern(isCheater: bool, banStatus: bool, suspiciousScore: int): string {
    if isCheater then "bg-[url('/svgs/cheater.svg')]"
    else if banStatus then "bg-[url('/svgs/cheater.svg')]"
    else if suspiciousScore >= 70 then "bg-[url('/patterns/topography.svg')]"
    else "bg-[url('/patterns/jupiter.svg')]"
  }

  /** The gradient a badge label stands for. */
  function GradientForBadge(name: string): string {
    if name == "Cheater" then "bg-gradient-to-t from-red-800 to-red-500/30"
    else if name == "Banned" then "bg-gradient-to-t from-red-700 to-orange-600"
    else if name == "Suspicious" then "bg-gradient-to-t from-orange-600 to-yellow-500"
    else "bg-gradient-to-t from-green-600 to-green-400"
  }

  /** The header and the status badge agree: the gradient is the one of the
      profile's badge, so both follow one precedence. */
  lemma GradientFollowsBadge(isCheater: bool, banStatus: bool, suspiciousScore: int)
    ensures Gradient(isCheater, banStatus, suspiciousScore)
         == GradientForBadge(StatusBadge.StatusBadge(isCheater, banStatus, suspiciousScore).name)
  {
  }

  /** Four gradients for four badges; two patterns share the cheater image. */
  lemma PatternTiers(isCheater: bool, banStatus: bool, suspiciousScore: int)
    ensures Pattern(isCheater, banStatus, suspiciousScore) == "bg-[url('/svgs/cheater.svg')]" <==> isCheater || banStatus
    ensures Pattern(isCheater, banStatus, suspiciousScore) == "bg-[url('/patterns/topography.svg')]"
        <==> StatusBadge.StatusBadge(isCheater, banStatus, suspiciousScore).name == "Suspicious"
    ensures Pattern(true, banStatus, suspiciousScore) == Pattern(false, true, suspiciousScore)
  {
  }

  /** `height = 32` applies only when no height is given. */
  function Height(height: Option<int>): int {
    if height.Some? then height.value else 32
  }

  /** The outer class list. */
  function BackgroundClass(isCheater: bool, banStatus: bool, suspiciousScore: int, height: Option<int>): (r: string)
    ensures StartsWith(r, "relative h-" + IntToString(Height(height)) + " ")
    ensures height.None? ==> StartsWith(r, "relative h-32 ")
  {
    var prefix := "relative h-" + IntToString(Height(height)) + " ";
    var r := prefix + Gradient(isCheater, banStatus, suspiciousScore) + " text-white";
    assert r[..|prefix|] == prefix;
    assert IntToString(32) == "32" by {
      assert NatToString(32) == NatToString(3) + [DigitChar(2)];
    }
    r
  }
}
