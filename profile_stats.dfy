/**
 * components/profiles/profile-stats.tsx: the `SuspiciousScore` badge and bar
 * of the statistics panel.
 */
module ProfileStats {
  import CheaterStatusBar

  /** The badge variant, its text and the bar colour. */
  datatype ScoreView = ScoreView(variant: string, caption: string, colour: string)

  /** `SuspiciousScore`: the bands are tested from the top down. */
  function SuspiciousScore(score: int): (r: ScoreView)
    ensures r.caption == "Highly Suspicious" <==> score >= 85
    ensures r.caption == "Suspicious" <==> 70 <= score < 85
    ensures r.caption == "Questionable" <==> 50 <= score < 70
    ensures r.caption == "Normal" <==> score < 50
    ensures r.variant == "destructive" <==> score >= 85
    ensures r.variant != "destructive" ==> r.variant == "outline"
  {
    var (colour, caption) :=
      if score >= 85 then ("bg-destructive", "Highly Suspicious")
      else if score >= 70 then ("bg-orange-500", "Suspicious")
      else if score >= 50 then ("bg-yellow-500", "Questionable")
      else ("bg-success", "Normal");
    ScoreView(if score >= 85 then "destructive" else "outline", caption, colour)
  }

  /** The panel's colour is the standing bar's colour for the same score,
      and the caption names the band. */
  lemma SameBandsAsStatusBar(score: int)
    ensures SuspiciousScore(score).colour == CheaterStatusBar.ScoreColour(score)
    ensures SuspiciousScore(score).caption == BandCaption(CheaterStatusBar.BandOf(score))
  {
  }

  function BandCaption(b: CheaterStatusBar.Band): string {
    match b
    case High => "Highly Suspicious"
    case Elevated => "Suspicious"
    case Moderate => "Questionable"
    case Normal => "Normal"
  }
}
