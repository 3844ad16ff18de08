/**
 * components/card/suspect-card-grid.tsx: one card per reported profile,
 * with the banner gradient and badge chosen by bans and report counts and
 * the standing bar coloured by score.
 */
module SuspectCardGrid {
  import opened Text
  import CheaterStatusBar

  /** A profile as the grid receives it; a field that is left out of the
      record is None. */
  datatype Suspect = Suspect(
    id: string,
    steamName: Option<string>,
    steamId64: string,
    steamUrl: string,
    avatarUrl: Option<string>,
    reportCount: Option<int>,
    banStatus: bool,
    suspiciousScore: Option<int>)

  /** The destructuring defaults: "Unknown", 0 and 0. */
  function NameOf(s: Suspect): string { if s.steamName.Some? then s.steamName.value else "Unknown" }
  function ReportsOf(s: Suspect): int { if s.reportCount.Some? then s.reportCount.value else 0 }
  function ScoreOf(s: Suspect): int { if s.suspiciousScore.Some? then s.suspiciousScore.value else 0 }

  /** The banner gradient: banned red, more than 5 reports orange, more than
      1 yellow, else green. */
  function CardGradient(banStatus: bool, reportCount: int): string {
    if banStatus then "from-red-600 to-red-800"
    else if reportCount > 5 then "from-orange-500 to-orange-700"
    else if reportCount > 1 then "from-yellow-400 to-yellow-600"
    else "from-green-600 to-green-800"
  }

  /** The badge: banned, more than one report, or good. */
  function CardBadge(banStatus: bool, reportCount: int): (r: string)
    ensures r == "Banned" <==> banStatus
    ensures r == "Suspicious" <==> !banStatus && reportCount > 1
    ensures r == "Good" <==> !banStatus && reportCount <= 1
  {
    if banStatus then "Banned" else if reportCount > 1 then "Suspicious" else "Good"
  }

  /** Gradient and badge use the same tiers: a yellow or orange banner goes
      with "Suspicious", a red one with "Banned", a green one with "Good". */
  lemma GradientMatchesBadge(banStatus: bool, reportCount: int)
    ensures CardGradient(banStatus, reportCount) == "from-red-600 to-red-800" <==> CardBadge(banStatus, reportCount) == "Banned"
    ensures CardGradient(banStatus, reportCount) == "from-green-600 to-green-800" <==> CardBadge(banStatus, reportCount) == "Good"
  {
  }

  /** The bar colour and the banner border colour. */
  datatype Colours = Colours(bar: string, border: string)

  /** The border colour of a score band. */
  function BorderColour(b: CheaterStatusBar.Band): string {
    match b
    case High => "border-red-500"
    case Elevated => "border-orange-500"
    case Moderate => "border-yellow-500"
    case Normal => "border-green-500"
  }

  /** The colours as the component computes them: the second chain, meant
      for the border, assigns `scoreColor` again, and `borderColour` keeps
      its initial value. */
  function ColoursAsWritten(score: int): (r: Colours)
    ensures r.border == "border-green-500"
    ensures r.bar == if score >= 50 then BorderColour(CheaterStatusBar.BandOf(score))
                     else CheaterStatusBar.BandColour(CheaterStatusBar.BandOf(score))
  {
    var scoreColour := CheaterStatusBar.ScoreColour(score);
    var borderColour := "border-green-500";
    var scoreColour' :=
      if score >= 85 then "border-red-500"
      else if score >= 70 then "border-orange-500"
      else if score >= 50 then "border-yellow-500"
      else scoreColour;
    Colours(scoreColour', borderColour)
  }

  /** From a score of 50 the bar gets a border class, which gives it no fill
      colour, and the border is green at every score. */
  lemma ColoursAsWrittenMisplaced(score: int)
    ensures ColoursAsWritten(score).border == "border-green-500"
    ensures score >= 50 ==> StartsWith(ColoursAsWritten(score).bar, "border-")
    ensures ColoursAsWritten(90) == Colours("border-red-500", "border-green-500")
  {
    var bar := ColoursAsWritten(score).bar;
    if score >= 50 {
      assert bar[..7] == "border-";
    }
  }

  /** The colours as the two chains evidently mean them: the bar keeps the
      fill of its band and the border takes the border colour of the same
      band. */
  function CardColours(score: int): (r: Colours)
    ensures r.bar == CheaterStatusBar.BandColour(CheaterStatusBar.BandOf(score))
    ensures r.border == BorderColour(CheaterStatusBar.BandOf(score))
  {
    var scoreColour := CheaterStatusBar.ScoreColour(score);
    var borderColour :=
      if score >= 85 then "border-red-500"
      else if score >= 70 then "border-orange-500"
      else if score >= 50 then "border-yellow-500"
      else "border-green-500";
    Colours(scoreColour, borderColour)
  }

  /** The card's bar and the profile page's standing bar show the same
      colour for a score, and the border tells the band. */
  lemma ColoursAgreeWithStatusBar(score: int, s2: int)
    ensures CardColours(score).bar == CheaterStatusBar.StatusBar(score, None, None).colour
    ensures CardColours(score).border == CardColours(s2).border <==> CheaterStatusBar.BandOf(score) == CheaterStatusBar.BandOf(s2)
  {
  }

  /** What one card shows. */
  datatype Card = Card(name: string, gradient: string, badge: string, colours: Colours,
                       scoreText: string, width: string, initial: string)

  /** The card as the component renders it, with the colours as written. */
  function CardOf(s: Suspect): (c: Card)
    ensures c.gradient == CardGradient(s.banStatus, ReportsOf(s))
    ensures c.badge == CardBadge(s.banStatus, ReportsOf(s))
    ensures c.colours == ColoursAsWritten(ScoreOf(s))
    ensures c.scoreText == IntToString(ScoreOf(s)) + "%" && c.width == c.scoreText
    ensures s.steamName.None? ==> c.name == "Unknown" && c.initial == "U"
  {
    var name := NameOf(s);
    Card(name, CardGradient(s.banStatus, ReportsOf(s)), CardBadge(s.banStatus, ReportsOf(s)),
         ColoursAsWritten(ScoreOf(s)), IntToString(ScoreOf(s)) + "%", IntToString(ScoreOf(s)) + "%",
         Take(name, 1))
  }

  /** The card once the border chain assigns `borderColour`: the same card
      with the corrected colours, whose bar agrees with the profile page. */
  function CardOfCorrected(s: Suspect): (c: Card)
    ensures c.colours.bar == CheaterStatusBar.StatusBar(ScoreOf(s), None, None).colour
    ensures c.colours.border == BorderColour(CheaterStatusBar.BandOf(ScoreOf(s)))
    ensures c.(colours := CardOf(s).colours) == CardOf(s)
  {
    ColoursAgreeWithStatusBar(ScoreOf(s), ScoreOf(s));
    CardOf(s).(colours := CardColours(ScoreOf(s)))
  }

  /** The grid: a message for an empty list, else one card per profile. */
  datatype GridView = EmptyMessage(text: string) | Cards(cards: seq<Card>)

  function Grid(suspects: seq<Suspect>): (r: GridView)
    ensures r.EmptyMessage? <==> suspects == []
    ensures r.EmptyMessage? ==> r.text == "No reported profiles found."
    ensures r.Cards? ==> |r.cards| == |suspects| && forall i :: 0 <= i < |suspects| ==> r.cards[i] == CardOf(suspects[i])
  {
    if |suspects| == 0 then EmptyMessage("No reported profiles found.")
    else Cards(seq(|suspects|, i requires 0 <= i < |suspects| => CardOf(suspects[i])))
  }
}
