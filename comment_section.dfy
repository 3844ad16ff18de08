/**
 * components/comments/comment-section.tsx: the locally kept comment list with
 * its submit handler, and the relative age shown next to each comment.
 * The clock (`Date.now()`, `new Date().toISOString()`) is passed in.
 */
module CommentSection {
  import opened Text

  datatype Comment = Comment(id: string, content: string, createdAt: string, userId: string)

  const CurrentUser := "current-user"

  /** The comment a submission at `now` (milliseconds) creates. */
  function NewComment(content: string, now: int, nowIso: string): Comment {
    Comment("cm-" + IntToString(now), content, nowIso, CurrentUser)
  }

  class CommentSectionState {
    var newComment: string
    var localComments: seq<Comment>

    constructor(comments: seq<Comment>)
      ensures newComment == "" && localComments == comments
    {
      newComment := "";
      localComments := comments;
    }

    /** `handleSubmitComment`: a blank draft is ignored; otherwise the draft,
        untrimmed, is put in front of the list and the draft is cleared. */
    method HandleSubmitComment(now: int, nowIso: string)
      modifies this
      ensures Trim(old(newComment)) == [] ==> newComment == old(newComment) && localComments == old(localComments)
      ensures Trim(old(newComment)) != [] ==>
        localComments == [NewComment(old(newComment), now, nowIso)] + old(localComments) && newComment == ""
      ensures |localComments| == |old(localComments)| + 1 <==>
        exists i :: 0 <= i < |old(newComment)| && !IsJsSpace(old(newComment)[i])
      ensures |localComments| >= |old(localComments)|
      ensures localComments[|localComments| - |old(localComments)|..] == old(localComments)
    {
      TrimEmptyIff(newComment);
      if Trim(newComment) == [] {
        return;
      }
      var comment := NewComment(newComment, now, nowIso);
      localComments := [comment] + localComments;
      newComment := "";
    }
  }

  // ---------------------------------------------------------------------------
  // getRelativeTime
  // ---------------------------------------------------------------------------

  datatype Unit = Minutes | Hours | Days | Months | Years

  /** The length of a unit in seconds; a month is 30 days, a year 365. */
  function Seconds(u: Unit): (n: nat)
    ensures n >= 60
  {
    match u
    case Minutes => 60
    case Hours => 3600
    case Days => 86400
    case Months => 2592000
    case Years => 31536000
  }

  function UnitName(u: Unit): string {
    match u
    case Minutes => "minutes"
    case Hours => "hours"
    case Days => "days"
    case Months => "months"
    case Years => "years"
  }

  /** "just now", or a whole number of some unit. */
  datatype Age = JustNow | Ago(count: int, unit: Unit)

  /** `Math.floor((now - date) / 1000)`: the elapsed whole seconds, rounded
      down also when the date lies in the future. */
  function ElapsedSeconds(nowMs: int, dateMs: int): (d: int)
    ensures 1000 * d <= nowMs - dateMs < 1000 * (d + 1)
  {
    (nowMs - dateMs) / 1000
  }

  /** The bucket of an elapsed time, tested from the smallest unit up. */
  function AgeOf(d: int): (a: Age)
    ensures a.JustNow? <==> d < 60
  {
    if d < 60 then JustNow
    else if d < 3600 then Ago(d / 60, Minutes)
    else if d < 86400 then Ago(d / 3600, Hours)
    else if d < 2592000 then Ago(d / 86400, Days)
    else if d < 31536000 then Ago(d / 2592000, Months)
    else Ago(d / 31536000, Years)
  }

  /** A shown count is at least one, is the whole number of its units in the
      elapsed time, and is below the size of the next unit. */
  lemma AgeBounds(d: int)
    requires d >= 60
    ensures var a := AgeOf(d);
      && a.Ago? && a.count >= 1
      && a.count * Seconds(a.unit) <= d < (a.count + 1) * Seconds(a.unit)
      && (a.unit == Minutes ==> a.count < 60)
      && (a.unit == Hours ==> a.count < 24)
      && (a.unit == Days ==> a.count < 30)
  {
  }

  /** Every unit below years is used for an elapsed time shorter than the
      next unit, and years for everything from 365 days on. */
  lemma UnitChoice(d: int)
    requires d >= 60
    ensures var u := AgeOf(d).unit;
      && Seconds(u) <= d
      && (u != Years ==> d < NextSeconds(u))
  {
  }

  function NextSeconds(u: Unit): nat {
    match u
    case Minutes => 3600
    case Hours => 86400
    case Days => 2592000
    case Months => 31536000
    case Years => 31536000
  }

  function AgeText(a: Age): string {
    match a
    case JustNow => "just now"
    case Ago(n, u) => IntToString(n) + " " + UnitName(u) + " ago"
  }

  /** The label for a date; `dateMs` is None when the text is not a date,
      whose time is NaN: every comparison fails and the year count reads
      "NaN". */
  function RelativeTime(nowMs: int, dateMs: Option<int>): (r: string)
    ensures dateMs.Some? && nowMs - dateMs.value < 60000 ==> r == "just now"
    ensures dateMs.None? ==> r == "NaN years ago"
  {
    match dateMs
    case None => "NaN years ago"
    case Some(t) => AgeText(AgeOf(ElapsedSeconds(nowMs, t)))
  }

  /** Past the first minute the label starts with the decimal count, which
      reads back as a positive number. */
  lemma LabelCount(nowMs: int, dateMs: int)
    requires nowMs - dateMs >= 60000
    ensures var a := AgeOf(ElapsedSeconds(nowMs, dateMs));
      && a.Ago? && a.count >= 1
      && StartsWith(RelativeTime(nowMs, Some(dateMs)), IntToString(a.count) + " ")
  {
    var d := ElapsedSeconds(nowMs, dateMs);
    AgeBounds(d);
    var a := AgeOf(d);
    var r := IntToString(a.count) + " " + UnitName(a.unit) + " ago";
    assert r[..|IntToString(a.count) + " "|] == IntToString(a.count) + " ";
  }
}
