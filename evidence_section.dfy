/**
 * components/evidence/evidence-section.tsx: the locally kept evidence list,
 * its vote counters and the add-evidence form. The clock is passed in and
 * the `alert` on a rejected link is left out.
 */
module EvidenceSection {
  import opened Text
  import Utils
  import EvidenceForm

  datatype Evidence = Evidence(id: string, evidenceType: string, evidenceUrl: string, content: string,
                               createdAt: string, userId: string, upvotes: int, downvotes: int)

  datatype VoteType = Up | Down

  const CurrentUser := "current-user"

  /** One item after a vote on `id`: only a matching item changes. */
  function VoteOn(item: Evidence, id: string, vote: VoteType): Evidence {
    if item.id != id then item
    else if vote == Up then item.(upvotes := item.upvotes + 1)
    else item.(downvotes := item.downvotes + 1)
  }

  /** `prev.map(...)`: every item voted on in place. */
  function Voted(items: seq<Evidence>, id: string, vote: VoteType): (r: seq<Evidence>)
    ensures |r| == |items|
    ensures forall i :: 0 <= i < |items| ==> r[i].id == items[i].id
    ensures forall i :: 0 <= i < |items| && items[i].id != id ==> r[i] == items[i]
    ensures forall i :: 0 <= i < |items| && items[i].id == id ==>
      r[i] == if vote == Up then items[i].(upvotes := items[i].upvotes + 1)
              else items[i].(downvotes := items[i].downvotes + 1)
  {
    seq(|items|, i requires 0 <= i < |items| => VoteOn(items[i], id, vote))
  }

  function Count(items: seq<Evidence>, id: string): nat {
    if items == [] then 0 else (if items[0].id == id then 1 else 0) + Count(items[1..], id)
  }

  function TotalUp(items: seq<Evidence>): int {
    if items == [] then 0 else items[0].upvotes + TotalUp(items[1..])
  }

  function TotalDown(items: seq<Evidence>): int {
    if items == [] then 0 else items[0].downvotes + TotalDown(items[1..])
  }

  /** Over the whole list, a vote adds the number of items with the id to its
      own counter's total, and nothing to the other counter's. */
  lemma {:induction false} VoteTotals(items: seq<Evidence>, id: string, vote: VoteType)
    ensures TotalUp(Voted(items, id, vote)) == TotalUp(items) + (if vote == Up then Count(items, id) else 0)
    ensures TotalDown(Voted(items, id, vote)) == TotalDown(items) + (if vote == Down then Count(items, id) else 0)
  {
    if items != [] {
      VoteTotals(items[1..], id, vote);
      assert Voted(items, id, vote)[1..] == Voted(items[1..], id, vote);
    }
  }

  /** A vote on an id no item has leaves the list as it was. */
  lemma UnknownIdUnchanged(items: seq<Evidence>, id: string, vote: VoteType)
    requires forall i :: 0 <= i < |items| ==> items[i].id != id
    ensures Voted(items, id, vote) == items
  {
  }

  /** The item a submission at `now` (milliseconds) adds. */
  function NewEvidence(url: string, description: string, now: int, nowIso: string): Evidence {
    Evidence("ev-" + IntToString(now), "video", url, description, nowIso, CurrentUser, 0, 0)
  }

  /** The component's local `getYouTubeVideoId`: the same pattern and the
      same length test as the one in lib/utils.ts. */
  function VideoId(url: string): (r: Option<string>)
    ensures r.Some? ==> |r.value| == 11
    ensures r.Some? ==> forall k :: 0 <= k < 11 ==> r.value[k] != '#' && r.value[k] != '&' && r.value[k] != '?'
  {
    Utils.YouTubeVideoId(url)
  }

  class EvidenceSectionState {
    var showAddForm: bool
    var newEvidenceUrl: string
    var newEvidenceDescription: string
    var localEvidence: seq<Evidence>

    constructor(evidence: seq<Evidence>)
      ensures !showAddForm && newEvidenceUrl == "" && newEvidenceDescription == ""
      ensures localEvidence == evidence
    {
      showAddForm, newEvidenceUrl, newEvidenceDescription := false, "", "";
      localEvidence := evidence;
    }

    /** `handleVote`. */
    method HandleVote(id: string, vote: VoteType)
      modifies this
      ensures localEvidence == Voted(old(localEvidence), id, vote)
      ensures showAddForm == old(showAddForm) && newEvidenceUrl == old(newEvidenceUrl)
      ensures newEvidenceDescription == old(newEvidenceDescription)
    {
      localEvidence := Voted(localEvidence, id, vote);
    }

    /** `handleSubmitEvidence`: a link that fails the form's check changes
        nothing; otherwise a video item with no votes goes in front and the
        form is cleared and closed. */
    method HandleSubmitEvidence(now: int, nowIso: string)
      modifies this
      ensures !EvidenceForm.IsYouTubeLink(old(newEvidenceUrl)) ==>
        && localEvidence == old(localEvidence) && showAddForm == old(showAddForm)
        && newEvidenceUrl == old(newEvidenceUrl) && newEvidenceDescription == old(newEvidenceDescription)
      ensures EvidenceForm.IsYouTubeLink(old(newEvidenceUrl)) ==>
        && localEvidence == [NewEvidence(old(newEvidenceUrl), old(newEvidenceDescription), now, nowIso)] + old(localEvidence)
        && !showAddForm && newEvidenceUrl == "" && newEvidenceDescription == ""
    {
      if !Contains(newEvidenceUrl, "youtube.com") && !Contains(newEvidenceUrl, "youtu.be") {
        return;
      }
      var item := NewEvidence(newEvidenceUrl, newEvidenceDescription, now, nowIso);
      localEvidence := [item] + localEvidence;
      newEvidenceUrl := "";
      newEvidenceDescription := "";
      showAddForm := false;
    }
  }

  /** An added item is a video with the submitted link, no votes and an id
      that encodes the submission time. */
  lemma NewEvidenceShape(url: string, description: string, now: int, nowIso: string)
    ensures var e := NewEvidence(url, description, now, nowIso);
      && e.evidenceType == "video" && e.evidenceUrl == url && e.content == description
      && e.upvotes == 0 && e.downvotes == 0
      && StartsWith(e.id, "ev-") && e.id[3..] == IntToString(now)
  {
    var e := NewEvidence(url, description, now, nowIso);
    assert e.id[..3] == "ev-";
  }
}
