/**
 * app/evidence/actions.ts: `submitEvidenceAction` stores the evidence a form
 * describes as one new row of the `evidence` table.
 */
module EvidenceActions {
  import opened Text
  import opened Utils
  import opened Store

  /** The caller's arguments; `game` and `userId` may be left out. */
  datatype SubmitArgs = SubmitArgs(profileId: ProfileId, steamId64: Option<string>,
                                   game: Option<string>, userId: Option<string>)

  /** `{ success: true }`, the skip `{ success: false, message }`, or the
      insert failure `{ success: false, error }`. */
  datatype EvidenceResult = Submitted | Skipped(message: string) | Failed(error: string)

  const NoEvidenceFields := "No evidence fields provided."

  /** `s || null`: the empty string is stored as null. */
  function NullIfEmpty(s: string): (r: Option<string>)
    ensures r.None? <==> s == ""
    ensures r.Some? ==> r.value == s
  {
    if s == "" then None else Some(s)
  }

  /** `game || null`: a missing or empty game is stored as null. */
  function GameOrNull(game: Option<string>): (r: Option<string>)
    ensures r.None? <==> game.None? || game.value == ""
    ensures r.Some? ==> r == game
  {
    match game
    case None => None
    case Some(g) => NullIfEmpty(g)
  }

  /** The row inserted for parsed fields: URL and content are null when
      empty, `steam_id_64` and `reporter` null only when absent (`??`), and
      the game null when absent or empty (`||`). */
  function EvidenceRowFor(fields: EvidenceFields, args: SubmitArgs): (row: EvidenceRow)
    ensures row.profileId == args.profileId && row.evidenceType == fields.evidenceType
    ensures row.evidenceUrl.None? <==> fields.evidenceUrl == ""
    ensures row.evidenceUrl.Some? ==> row.evidenceUrl.value == fields.evidenceUrl
    ensures row.content.None? <==> fields.evidenceContent == ""
    ensures row.content.Some? ==> row.content.value == fields.evidenceContent
    ensures row.steamId64 == args.steamId64 && row.reporter == args.userId
    ensures row.game.None? <==> args.game.None? || args.game.value == ""
  {
    EvidenceRow(args.profileId, args.steamId64, fields.evidenceType,
                NullIfEmpty(fields.evidenceUrl), NullIfEmpty(fields.evidenceContent),
                GameOrNull(args.game), args.userId)
  }

  /** The tables after the action, and its reply; `fault` is the error the
      insert would return. */
  function SubmitEvidenceSpec(t: Tables, form: Form, args: SubmitArgs, fault: Option<string>): (r: (Tables, EvidenceResult))
    ensures r.1 == Skipped(NoEvidenceFields) <==> ParseEvidenceFields(form).evidenceType == ""
    ensures r.1 == Submitted <==> ParseEvidenceFields(form).evidenceType != "" && fault.None?
    ensures r.1.Failed? <==> ParseEvidenceFields(form).evidenceType != "" && fault.Some?
    ensures r.1.Failed? ==> r.1.error == fault.value
    ensures r.1 != Submitted ==> r.0 == t
    ensures r.1 == Submitted ==>
      r.0 == t.(evidence := t.evidence + [EvidenceRowFor(ParseEvidenceFields(form), args)])
  {
    var fields := ParseEvidenceFields(form);
    if fields.evidenceType == "" then (t, Skipped(NoEvidenceFields))
    else if fault.Some? then (t, Failed(fault.value))
    else (t.(evidence := t.evidence + [EvidenceRowFor(fields, args)]), Submitted)
  }

  method SubmitEvidence(db: Database, form: Form, args: SubmitArgs, fault: Option<string>)
    returns (result: EvidenceResult)
    modifies db
    ensures (db.State(), result) == SubmitEvidenceSpec(old(db.State()), form, args, fault)
  {
    var fields := ParseEvidenceFields(form);
    if fields.evidenceType == "" {
      return Skipped(NoEvidenceFields);
    }
    var error := db.InsertEvidence(EvidenceRowFor(fields, args), fault);
    if error.Some? {
      return Failed(error.value);
    }
    return Submitted;
  }

  /** A stored row always names one of the three evidence kinds, carries a
      link exactly for videos and screenshots, and keeps the profile and
      the other tables as they were. */
  lemma {:induction false} StoredRowShape(t: Tables, form: Form, args: SubmitArgs)
    requires SubmitEvidenceSpec(t, form, args, None).1 == Submitted
    ensures var t' := SubmitEvidenceSpec(t, form, args, None).0;
      && |t'.evidence| == |t.evidence| + 1
      && t'.profiles == t.profiles && t'.reports == t.reports
      && WellFormed(t) == WellFormed(t')
      && var row := t'.evidence[|t.evidence|];
      && row.evidenceType in {"video", "screenshot", "description"}
      && (row.evidenceUrl.Some? <==> row.evidenceType in {"video", "screenshot"})
      && (row.evidenceType == "video" ==> row.evidenceUrl == Some(Field(form, "video_url")))
      && (row.evidenceType == "description" ==> row.content == Some(WithGame(Field(form, "game"), Field(form, "detailed_description"))))
  {
    var fields := ParseEvidenceFields(form);
    var row := EvidenceRowFor(fields, args);
    assert fields.evidenceType != "";
    if fields.evidenceType == "description" {
      assert fields.evidenceContent == WithGame(Field(form, "game"), Field(form, "detailed_description"));
      assert Field(form, "detailed_description") != "";
    }
  }
}
