/**
 * components/forms/evidence-form.tsx: the two-field evidence form and its
 * link check. The `alert` on a rejected link is left out.
 */
module EvidenceForm {
  import opened Text
  import Utils

  /** The form's check: the link mentions "youtube.com" or "youtu.be". */
  predicate IsYouTubeLink(url: string) {
    Contains(url, "youtube.com") || Contains(url, "youtu.be")
  }

  /** The check is on the text alone: it accepts a link from which no video
      id can be read. */
  lemma CheckAdmitsLinkWithoutId()
    ensures IsYouTubeLink("youtube.com")
    ensures Utils.YouTubeVideoId("youtube.com").None?
  {
    var s := "youtube.com";
    assert OccursAt(s, "youtube.com", 0);
    ContainsIff(s, "youtube.com");
    forall q: nat | q <= |s|
      ensures Utils.MarkerLength(s, q) == 0
    {
      Utils.NoMarkerWithoutPunctuation(s, q);
    }
  }

  class EvidenceFormState {
    var newEvidenceUrl: string
    var newEvidenceDescription: string

    constructor()
      ensures newEvidenceUrl == "" && newEvidenceDescription == ""
    {
      newEvidenceUrl, newEvidenceDescription := "", "";
    }

    /** `handleSubmit`: the `(url, description)` handed to `onSubmit`, or
        None when the link is rejected; the fields are cleared only after an
        accepted submission. */
    method HandleSubmit() returns (submitted: Option<(string, string)>)
      modifies this
      ensures submitted.Some? <==> IsYouTubeLink(old(newEvidenceUrl))
      ensures submitted.Some? ==>
        && submitted.value == (old(newEvidenceUrl), old(newEvidenceDescription))
        && newEvidenceUrl == "" && newEvidenceDescription == ""
      ensures submitted.None? ==>
        newEvidenceUrl == old(newEvidenceUrl) && newEvidenceDescription == old(newEvidenceDescription)
    {
      if !Contains(newEvidenceUrl, "youtube.com") && !Contains(newEvidenceUrl, "youtu.be") {
        return None;
      }
      submitted := Some((newEvidenceUrl, newEvidenceDescription));
      newEvidenceUrl := "";
      newEvidenceDescription := "";
    }
  }
}
