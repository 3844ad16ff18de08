/**
 * The two string rules of lib/utils.ts: which evidence a submitted form
 * describes (`parseEvidenceFields`) and the YouTube video id of a link
 * (`getYouTubeVideoId`).
 */
module Utils {
  import opened Text

  /** Submitted form fields by name; a name that is absent was not sent. */
  type Form = map<string, string>

  /** `formData.get(name)?.toString() ?? ""`. */
  function Field(form: Form, name: string): string {
    if name in form then form[name] else ""
  }

  datatype EvidenceFields = EvidenceFields(evidenceType: string, evidenceUrl: string, evidenceContent: string)

  /** The evidence kinds a form can describe; "" when it describes none. */
  const EvidenceTypes: set<string> := {"", "video", "screenshot", "description"}

  /** `Game: <game>` on a line of its own in front of non-empty content. */
  function WithGame(game: string, content: string): string {
    if game != "" && content != "" then "Game: " + game + "\n" + content else content
  }

  /** The if-chain: a video link wins over a screenshot link, which wins over
      a written description; with none of them all three fields stay "". */
  function Chosen(form: Form): EvidenceFields {
    if Field(form, "video_url") != "" then
      EvidenceFields("video", Field(form, "video_url"), Field(form, "video_description"))
    else if Field(form, "screenshot_url") != "" then
      EvidenceFields("screenshot", Field(form, "screenshot_url"), Field(form, "screenshot_description"))
    else if Field(form, "detailed_description") != "" then
      EvidenceFields("description", "", Field(form, "detailed_description"))
    else
      EvidenceFields("", "", "")
  }

  function ParseEvidenceFields(form: Form): (r: EvidenceFields)
    ensures r.evidenceType in EvidenceTypes
    ensures r.evidenceType == "video" <==> Field(form, "video_url") != ""
    ensures r.evidenceType == "screenshot" <==> Field(form, "video_url") == "" && Field(form, "screenshot_url") != ""
    ensures r.evidenceType == "description" <==>
      Field(form, "video_url") == "" && Field(form, "screenshot_url") == "" && Field(form, "detailed_description") != ""
    ensures r.evidenceType == "video" ==>
      r.evidenceUrl == Field(form, "video_url") && r.evidenceContent == WithGame(Field(form, "game"), Field(form, "video_description"))
    ensures r.evidenceType == "screenshot" ==>
      r.evidenceUrl == Field(form, "screenshot_url") && r.evidenceContent == WithGame(Field(form, "game"), Field(form, "screenshot_description"))
    ensures r.evidenceType == "description" ==>
      r.evidenceUrl == "" && r.evidenceContent == WithGame(Field(form, "game"), Field(form, "detailed_description"))
    ensures r.evidenceType == "" ==> r.evidenceUrl == "" && r.evidenceContent == ""
    ensures r.evidenceUrl != "" <==> r.evidenceType in {"video", "screenshot"}
  {
    var c := Chosen(form);
    c.(evidenceContent := WithGame(Field(form, "game"), c.evidenceContent))
  }

  /** The "Game:" line is added exactly when a game is given and the chosen
      content is non-empty, and the chosen content can be read back after it. */
  lemma GamePrefix(form: Form)
    ensures var game := Field(form, "game");
      var chosen := Chosen(form).evidenceContent;
      var content := ParseEvidenceFields(form).evidenceContent;
      && (game != "" && chosen != "" ==>
            StartsWith(content, "Game: " + game + "\n") && content[|game| + 7..] == chosen)
      && (game == "" || chosen == "" ==> content == chosen)
      && (content == "" <==> chosen == "")
  {
    var game := Field(form, "game");
    var chosen := Chosen(form).evidenceContent;
    if game != "" && chosen != "" {
      var content := "Game: " + game + "\n" + chosen;
      assert content[..|game| + 7] == "Game: " + game + "\n";
      assert content[|game| + 7..] == chosen;
    }
  }

  // ---------------------------------------------------------------------------
  // getYouTubeVideoId: /^.*(youtu.be\/|v\/|u\/\w\/|embed\/|watch\?v=|&v=)([^#&?]*).*/

  /** The index of the first line terminator at or after `i`, or `|s|`: how far
      the leading `^.*` can reach. */
  function LineEnd(s: string, i: nat): (e: nat)
    requires i <= |s|
    ensures i <= e <= |s|
    ensures forall k :: i <= k < e ==> !IsLineTerminator(s[k])
    ensures e < |s| ==> IsLineTerminator(s[e])
    decreases |s| - i
  {
    if i == |s| || IsLineTerminator(s[i]) then i else LineEnd(s, i + 1)
  }

  /** The length of the first group matched at `p`, or 0 when none of
      `youtu.be/`, `v/`, `u/\w/`, `embed/`, `watch?v=`, `&v=` matches there
      (the `.` of `youtu.be` is any character but a line terminator). */
  function MarkerLength(s: string, p: nat): (m: nat)
    ensures m == 0 || m == 2 || m == 3 || m == 4 || m == 6 || m == 8 || m == 9
    ensures m > 0 ==> p + m <= |s|
  {
    if OccursAt(s, "youtu", p) && p + 9 <= |s| && !IsLineTerminator(s[p + 5]) && OccursAt(s, "be/", p + 6) then 9
    else if OccursAt(s, "v/", p) then 2
    else if p + 4 <= |s| && s[p] == 'u' && s[p + 1] == '/' && IsWordChar(s[p + 2]) && s[p + 3] == '/' then 4
    else if OccursAt(s, "embed/", p) then 6
    else if OccursAt(s, "watch?v=", p) then 8
    else if OccursAt(s, "&v=", p) then 3
    else 0
  }

  /** The greatest position at or before `p` where the first group matches:
      the greedy `^.*` gives back characters one at a time until it does. */
  function LastMarker(s: string, p: nat): (r: Option<nat>)
    ensures r.Some? ==> r.value <= p && MarkerLength(s, r.value) > 0
    ensures r.Some? ==> forall q :: r.value < q <= p ==> MarkerLength(s, q) == 0
    ensures r.None? ==> forall q: nat :: q <= p ==> MarkerLength(s, q) == 0
  {
    if MarkerLength(s, p) > 0 then Some(p)
    else if p == 0 then None
    else LastMarker(s, p - 1)
  }

  predicate IsIdStop(c: char) { c == '#' || c == '&' || c == '?' }

  /** The second group: the longest run from `i` without '#', '&' or '?'. */
  function IdRun(s: string, i: nat): (r: string)
    requires i <= |s|
    ensures i + |r| <= |s| && r == s[i..i + |r|]
    ensures forall k :: 0 <= k < |r| ==> !IsIdStop(r[k])
    ensures i + |r| == |s| || IsIdStop(s[i + |r|])
    decreases |s| - i
  {
    if i == |s| || IsIdStop(s[i]) then [] else [s[i]] + IdRun(s, i + 1)
  }

  function YouTubeVideoId(url: string): (r: Option<string>)
    ensures r.Some? ==> |r.value| == 11 && forall k :: 0 <= k < 11 ==> !IsIdStop(r.value[k])
  {
    match LastMarker(url, LineEnd(url, 0))
    case None => None
    case Some(p) =>
      var id := IdRun(url, p + MarkerLength(url, p));
      if |id| == 11 then Some(id) else None
  }

  /** The characters of a YouTube video id. */
  predicate IsIdChar(c: char) { IsWordChar(c) || c == '-' }

  predicate IsVideoIdText(id: string) {
    |id| == 11 && forall k :: 0 <= k < |id| ==> IsIdChar(id[k])
  }

  /** Each alternative of the first group contains a '/', '?' or '&', so none
      matches where none of those follows. */
  lemma NoMarkerWithoutPunctuation(s: string, p: nat)
    requires forall k :: p <= k < |s| ==> s[k] != '/' && s[k] != '?' && s[k] != '&'
    ensures MarkerLength(s, p) == 0
  {
    if p + 9 <= |s| { assert s[p + 6..p + 9][2] == s[p + 8]; }
    if p + 2 <= |s| { assert s[p..p + 2][1] == s[p + 1]; }
    if p + 6 <= |s| { assert s[p..p + 6][5] == s[p + 5]; }
    if p + 8 <= |s| { assert s[p..p + 8][5] == s[p + 5]; }
    if p + 3 <= |s| { assert s[p..p + 3][0] == s[p]; }
  }

  /** A link made of a prefix whose last group match ends it, followed by an
      11-character id, yields that id. */
  lemma IdAfterPrefix(prefix: string, id: string, q: nat)
    requires IsVideoIdText(id)
    requires PlainPrefix(prefix, q)
    requires MarkerLength(prefix + id, q) > 0 && q + MarkerLength(prefix + id, q) == |prefix|
    requires forall r :: q < r < |prefix| ==> MarkerLength(prefix + id, r) == 0
    ensures YouTubeVideoId(prefix + id) == Some(id)
  {
    var s := prefix + id;
    forall k | 0 <= k < |s|
      ensures !IsLineTerminator(s[k])
      ensures |prefix| <= k ==> !IsIdStop(s[k])
    {
      if k < |prefix| {
        assert s[k] == prefix[k];
      } else {
        assert s[k] == id[k - |prefix|];
      }
    }
    assert LineEnd(s, 0) == |s|;
    forall r | q < r <= |s|
      ensures MarkerLength(s, r) == 0
    {
      if |prefix| <= r {
        NoMarkerWithoutPunctuation(s, r);
      }
    }
    assert LastMarker(s, |s|) == Some(q);
    var run := IdRun(s, |prefix|);
    assert |run| == 11;
    assert run == s[|prefix|..] == id;
  }

  /** Printable ASCII text holds no line terminator. */
  predicate Printable(s: string) {
    forall k :: 0 <= k < |s| ==> ' ' <= s[k] <= '~'
  }

  lemma PrintableOnOneLine(s: string)
    requires Printable(s)
    ensures OnOneLine(s)
  {
  }

  /** The first two characters of each alternative of the first group. */
  predicate IsLeadPair(a: char, b: char) {
    (a == 'y' && b == 'o') || (a == 'v' && b == '/') || (a == 'u' && b == '/')
    || (a == 'e' && b == 'm') || (a == 'w' && b == 'a') || (a == '&' && b == 'v')
  }

  lemma MarkerLead(s: string, p: nat)
    ensures MarkerLength(s, p) > 0 ==> p + 1 < |s| && IsLeadPair(s[p], s[p + 1])
  {
    if p + 9 <= |s| { assert s[p..p + 5][0] == s[p] && s[p..p + 5][1] == s[p + 1]; }
    if p + 2 <= |s| { assert s[p..p + 2][0] == s[p] && s[p..p + 2][1] == s[p + 1]; }
    if p + 6 <= |s| { assert s[p..p + 6][0] == s[p] && s[p..p + 6][1] == s[p + 1]; }
    if p + 8 <= |s| { assert s[p..p + 8][0] == s[p] && s[p..p + 8][1] == s[p + 1]; }
    if p + 3 <= |s| { assert s[p..p + 3][0] == s[p] && s[p..p + 3][1] == s[p + 1]; }
  }

  /** No group match starts inside `prefix` after position `q` when no two
      consecutive characters there begin an alternative. */
  lemma NoMarkerInTail(prefix: string, id: string, q: nat)
    requires |id| > 0
    requires PlainPrefix(prefix, q)
    requires |prefix| > 0 && !IsLeadPair(prefix[|prefix| - 1], id[0])
    ensures forall r :: q < r < |prefix| ==> MarkerLength(prefix + id, r) == 0
  {
    var s := prefix + id;
    forall r | q < r < |prefix|
      ensures MarkerLength(s, r) == 0
    {
      MarkerLead(s, r);
      assert s[r] == prefix[r];
      if r + 1 < |prefix| {
        assert s[r + 1] == prefix[r + 1];
      } else {
        assert s[r + 1] == id[0];
      }
    }
  }

  /** Where `watch?v=` occurs, no earlier alternative matches, so the group
      takes those eight characters. */
  lemma WatchMarker(s: string, p: nat)
    requires OccursAt(s, "watch?v=", p)
    ensures MarkerLength(s, p) == 8
  {
    assert s[p] == 'w' && s[p + 1] == 'a' by {
      assert s[p..p + 8][0] == s[p] && s[p..p + 8][1] == s[p + 1];
    }
    assert s[p..p + 5][0] == 'w' && s[p..p + 2][0] == 'w' && s[p..p + 6][0] == 'w';
  }

  /** Where `youtu.be/` occurs, the first alternative takes those nine characters. */
  lemma ShortMarker(s: string, p: nat)
    requires OccursAt(s, "youtu.be/", p)
    ensures MarkerLength(s, p) == 9
  {
    assert s[p..p + 5] == s[p..p + 9][..5] == "youtu";
    assert s[p + 6..p + 9] == s[p..p + 9][6..] == "be/";
    assert s[p + 5] == s[p..p + 9][5] == '.';
  }

  /** Where `embed/` occurs, the group takes those six characters. */
  lemma EmbedMarker(s: string, p: nat)
    requires OccursAt(s, "embed/", p)
    ensures MarkerLength(s, p) == 6
  {
    assert s[p] == 'e' && s[p + 1] == 'm' by {
      assert s[p..p + 6][0] == s[p] && s[p..p + 6][1] == s[p + 1];
    }
    assert s[p..p + 2][0] == 'e';
    if p + 5 <= |s| { assert s[p..p + 5][0] == 'e'; }
  }

  /** The facts about a link prefix the id lemmas need: it lies on one line,
      and no alternative begins after position `q`. */
  predicate PlainPrefix(prefix: string, q: nat) {
    OnOneLine(prefix) && NoLeadAfter(prefix, q)
  }

  predicate OnOneLine(s: string) {
    forall k :: 0 <= k < |s| ==> !IsLineTerminator(s[k])
  }

  predicate NoLeadAfter(s: string, q: nat) {
    forall r :: q < r < |s| - 1 ==> !IsLeadPair(s[r], s[r + 1])
  }

  lemma WatchPrefix()
    ensures Printable("https://www.youtube.com/watch?v=")
  {
  }

  lemma WatchLead()
    ensures NoLeadAfter("https://www.youtube.com/watch?v=", 24)
  {
  }

  lemma WatchTail()
    ensures "https://www.youtube.com/watch?v="[24..] == "watch?v="
  {
  }

  lemma ShortPrefix()
    ensures Printable("https://youtu.be/")
  {
  }

  lemma ShortLead()
    ensures NoLeadAfter("https://youtu.be/", 8)
  {
  }

  lemma ShortTail()
    ensures "https://youtu.be/"[8..] == "youtu.be/"
  {
  }

  lemma EmbedPrefix()
    ensures Printable("https://www.youtube.com/embed/")
  {
  }

  lemma EmbedLead()
    ensures NoLeadAfter("https://www.youtube.com/embed/", 24)
  {
  }

  lemma EmbedTail()
    ensures "https://www.youtube.com/embed/"[24..] == "embed/"
  {
  }

  /** A text that ends the prefix also occurs in the prefix followed by an id. */
  lemma OccursBeforeId(prefix: string, id: string, sub: string, q: nat)
    requires q <= |prefix| && prefix[q..] == sub
    ensures OccursAt(prefix + id, sub, q)
  {
    assert (prefix + id)[q..q + |sub|] == prefix[q..];
  }

  /** A one-line prefix ending in a group match, with no alternative beginning
      after it, followed by an id, yields that id. */
  lemma LinkId(prefix: string, id: string, q: nat)
    requires IsVideoIdText(id)
    requires LinkShape(prefix, id, q)
    ensures YouTubeVideoId(prefix + id) == Some(id)
  {
    NoMarkerInTail(prefix, id, q);
    IdAfterPrefix(prefix, id, q);
  }

  /** What `LinkId` needs of the prefix, for each usual link shape. */
  predicate LinkShape(prefix: string, id: string, q: nat) {
    && OnOneLine(prefix) && NoLeadAfter(prefix, q)
    && |prefix| > 0 && |id| > 0 && !IsLeadPair(prefix[|prefix| - 1], id[0])
    && MarkerLength(prefix + id, q) > 0 && q + MarkerLength(prefix + id, q) == |prefix|
  }

  lemma WatchShape(id: string)
    requires IsVideoIdText(id)
    ensures LinkShape("https://www.youtube.com/watch?v=", id, 24)
  {
    var prefix := "https://www.youtube.com/watch?v=";
    WatchPrefix();
    PrintableOnOneLine(prefix);
    WatchLead();
    WatchTail();
    OccursBeforeId(prefix, id, "watch?v=", 24);
    WatchMarker(prefix + id, 24);
  }

  lemma ShortShape(id: string)
    requires IsVideoIdText(id)
    ensures LinkShape("https://youtu.be/", id, 8)
  {
    var prefix := "https://youtu.be/";
    ShortPrefix();
    PrintableOnOneLine(prefix);
    ShortLead();
    ShortTail();
    OccursBeforeId(prefix, id, "youtu.be/", 8);
    ShortMarker(prefix + id, 8);
  }

  lemma EmbedShape(id: string)
    requires IsVideoIdText(id)
    ensures LinkShape("https://www.youtube.com/embed/", id, 24)
  {
    var prefix := "https://www.youtube.com/embed/";
    EmbedPrefix();
    PrintableOnOneLine(prefix);
    EmbedLead();
    EmbedTail();
    OccursBeforeId(prefix, id, "embed/", 24);
    EmbedMarker(prefix + id, 24);
  }

  /** The two usual link shapes give back the id they carry. */
  lemma WatchLinkId(id: string)
    requires IsVideoIdText(id)
    ensures YouTubeVideoId("https://www.youtube.com/watch?v=" + id) == Some(id)
  {
    WatchShape(id);
    LinkId("https://www.youtube.com/watch?v=", id, 24);
  }

  lemma ShortLinkId(id: string)
    requires IsVideoIdText(id)
    ensures YouTubeVideoId("https://youtu.be/" + id) == Some(id)
  {
    ShortShape(id);
    LinkId("https://youtu.be/", id, 8);
  }

  /** The embed link built from an id gives that id back. */
  lemma EmbedLinkId(id: string)
    requires IsVideoIdText(id)
    ensures YouTubeVideoId("https://www.youtube.com/embed/" + id) == Some(id)
  {
    EmbedShape(id);
    LinkId("https://www.youtube.com/embed/", id, 24);
  }
}
