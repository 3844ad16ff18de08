/**
 * components/profiles/cheater-status-bar.tsx: the "account standing" bar,
 * coloured by score bands unless the profile is marked a cheater.
 */
module CheaterStatusBar {
  import opened Text

  /** The score bands shared by the bars: from 85, from 70, from 50, below. */
  datatype Band = High | Elevated | Moderate | Normal

  function BandOf(score: int): (b: Band)
    ensures b == High <==> score >= 85
    ensures b == Elevated <==> 70 <= score < 85
    ensures b == Moderate <==> 50 <= score < 70
    ensures b == Normal <==> score < 50
  {
    if score >= 85 then High else if score >= 70 then Elevated else if score >= 50 then Moderate else Normal
  }

  /** The bar colour of each band. */
  function BandColour(b: Band): string {
    match b
    case High => "bg-destructive"
    case Elevated => "bg-orange-500"
    case Moderate => "bg-yellow-500"
    case Normal => "bg-success"
  }

  /** The component's `scoreColor` chain. */
  function ScoreColour(score: int): (c: string)
    ensures c == BandColour(BandOf(score))
  {
    if score >= 85 then "bg-destructive"
    else if score >= 70 then "bg-orange-500"
    else if score >= 50 then "bg-yellow-500"
    else "bg-success"
  }

  /** A higher score never gets a milder colour. */
  lemma ColourMonotone(s1: int, s2: int)
    requires s1 <= s2
    ensures BandRank(BandOf(s1)) <= BandRank(BandOf(s2))
  {
  }

  function BandRank(b: Band): nat {
    match b
    case Normal => 0
    case Moderate => 1
    case Elevated => 2
    case High => 3
  }

  /** What the bar shows: the caption, the value text, the fill colour and
      the fill width. */
  datatype Bar = Bar(caption: string, valueText: string, colour: string, width: string)

  const DefaultCaption := "Account Standing"

  /** `CheaterStatusBar`; `cheater` and `label` fall back to their defaults
      when not given. */
  function StatusBar(suspiciousScore: int, cheater: Option<bool>, caption: Option<string>): (r: Bar)
    ensures r.caption == (if caption.Some? then caption.value else DefaultCaption)
    ensures cheater == Some(true) ==> r.valueText == "CHEATER" && r.width == "100%" && r.colour == "bg-destructive"
    ensures cheater != Some(true) ==>
      r.valueText == IntToString(suspiciousScore) + "%" && r.width == r.valueText
      && r.colour == BandColour(BandOf(suspiciousScore))
  {
    var captionText := if caption.Some? then caption.value else DefaultCaption;
    var isCheater := if cheater.Some? then cheater.value else false;
    if isCheater then Bar(captionText, "CHEATER", "bg-destructive", "100%")
    else Bar(captionText, IntToString(suspiciousScore) + "%", ScoreColour(suspiciousScore), IntToString(suspiciousScore) + "%")
  }

  /** A cheater's bar does not depend on the score. */
  lemma CheaterOverridesScore(s1: int, s2: int, caption: Option<string>)
    ensures StatusBar(s1, Some(true), caption) == StatusBar(s2, Some(true), caption)
  {
  }

  /** The width is not clamped: a score above 100 gives a width above 100%. */
  lemma WidthUnclamped()
    ensures StatusBar(150, None, None).width == "150%"
  {
    assert NatToString(150) == "150" by {
      assert NatToString(1) == "1";
      assert NatToString(15) == NatToString(1) + [DigitChar(5)];
      assert NatToString(150) == NatToString(15) + [DigitChar(0)];
    }
  }
}
