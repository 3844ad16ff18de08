/**
 * app/reports/actions.ts: `submitProfileReportAction` resolves the Steam ids
 * of the reported link, upserts the profile, records a report with a hashed
 * placeholder address and stores the evidence through the file's own copy of
 * `submitEvidenceAction`. The writes are not undone when a later step fails.
 */
module ReportActions {
  import opened Text
  import Utils
  import opened Store
  import SteamApis

  // ---------------------------------------------------------------------------
  // The file's local parseEvidenceFields and submitEvidenceAction
  // ---------------------------------------------------------------------------

  /** The local `parseEvidenceFields`, in the order its statements run. */
  function ParseEvidenceFields(form: Utils.Form): (r: Utils.EvidenceFields)
    ensures r.evidenceType == "" <==>
      Utils.Field(form, "video_url") == "" && Utils.Field(form, "screenshot_url") == ""
      && Utils.Field(form, "detailed_description") == ""
  {
    var videoUrl := Utils.Field(form, "video_url");
    var screenshotUrl := Utils.Field(form, "screenshot_url");
    var detailedDesc := Utils.Field(form, "detailed_description");
    var game := Utils.Field(form, "game");
    var (evidenceType, evidenceUrl, evidenceContent) :=
      if videoUrl != "" then ("video", videoUrl, Utils.Field(form, "video_description"))
      else if screenshotUrl != "" then ("screenshot", screenshotUrl, Utils.Field(form, "screenshot_description"))
      else if detailedDesc != "" then ("description", "", detailedDesc)
      else ("", "", "");
    var content := if game != "" && evidenceContent != "" then "Game: " + game + "\n" + evidenceContent else evidenceContent;
    Utils.EvidenceFields(evidenceType, evidenceUrl, content)
  }

  /** The local copy reads a form exactly as the shared one in lib/utils.ts. */
  lemma LocalParseAgrees(form: Utils.Form)
    ensures ParseEvidenceFields(form) == Utils.ParseEvidenceFields(form)
  {
  }

  datatype EvidenceArgs = EvidenceArgs(profileId: ProfileId, steamId64: Option<string>)

  datatype EvidenceResult = Submitted | Skipped(message: string) | Failed(error: string)

  const NoEvidenceFields := "No evidence fields provided."

  /** The local insert has no game and no reporter column. */
  function EvidenceRowFor(fields: Utils.EvidenceFields, args: EvidenceArgs): (row: EvidenceRow)
    ensures row.profileId == args.profileId && row.steamId64 == args.steamId64
    ensures row.evidenceType == fields.evidenceType
    ensures row.evidenceUrl.None? <==> fields.evidenceUrl == ""
    ensures row.evidenceUrl.Some? ==> row.evidenceUrl.value == fields.evidenceUrl
    ensures row.content.None? <==> fields.evidenceContent == ""
    ensures row.content.Some? ==> row.content.value == fields.evidenceContent
    ensures row.game.None? && row.reporter.None?
  {
    EvidenceRow(args.profileId, args.steamId64, fields.evidenceType,
                if fields.evidenceUrl == "" then None else Some(fields.evidenceUrl),
                if fields.evidenceContent == "" then None else Some(fields.evidenceContent),
                None, None)
  }

  function SubmitEvidenceSpec(t: Tables, form: Utils.Form, args: EvidenceArgs, fault: Option<string>): (r: (Tables, EvidenceResult))
    ensures r.1 == Skipped(NoEvidenceFields) <==> ParseEvidenceFields(form).evidenceType == ""
    ensures r.1 == Submitted <==> ParseEvidenceFields(form).evidenceType != "" && fault.None?
    ensures r.1.Failed? ==> fault.Some? && r.1.error == fault.value
    ensures r.1 != Submitted ==> r.0 == t
    ensures r.1 == Submitted ==>
      r.0 == t.(evidence := t.evidence + [EvidenceRowFor(ParseEvidenceFields(form), args)])
  {
    var fields := ParseEvidenceFields(form);
    if fields.evidenceType == "" then (t, Skipped(NoEvidenceFields))
    else if fault.Some? then (t, Failed(fault.value))
    else (t.(evidence := t.evidence + [EvidenceRowFor(fields, args)]), Submitted)
  }

  method SubmitEvidence(db: Database, form: Utils.Form, args: EvidenceArgs, fault: Option<string>)
    returns (result: EvidenceResult)
    modifies db
    ensures (db.State(), result) == SubmitEvidenceSpec(old(db.State()), form, args, fault)
  {
    var fields := ParseEvidenceFields(form);
    if fields.evidenceType == "" {
      return Skipped(NoEvidenceFields);
    }
    var error := db.InsertEvidence(EvidenceRowFor(fields, args), fault);
    if error.Some? {
      return Failed(error.value);
    }
    return Submitted;
  }

  // ---------------------------------------------------------------------------
  // submitProfileReportAction
  // ---------------------------------------------------------------------------

  /** `{ success: true }`, or `{ error }` carrying the message of whatever was
      thrown. */
  datatype ReportResult = ReportSubmitted | ReportFailed(error: string)

  /** The database's answers that the action cannot choose: the error of the
      upsert, whether the re-read of an existing profile fails, and the errors
      of the two inserts. */
  datatype Faults = Faults(upsert: Option<string>, lookupFails: bool,
                           report: Option<string>, evidence: Option<string>)

  const PlaceholderIp := "0.0.0.0"
  const CouldNotUpsert := "Could not upsert profile."
  const EvidenceInsertFailed := "Failed to insert evidence"

  /** The id the action goes on with: the inserted row's, or, when the upsert
      was ignored as a duplicate, the id the re-read finds. */
  function ProfileIdAfter(t: Tables, reply: UpsertReply, steam64: string, lookupFails: bool): (r: Option<ProfileId>)
    ensures reply.Inserted? ==> r == Some(reply.row.id)
    ensures reply.Ignored? && !lookupFails ==>
      (r.Some? <==> FindProfile(t.profiles, steam64).Some?)
      && (r.Some? ==> r.value == FindProfile(t.profiles, steam64).value.id)
    ensures reply.UpsertFailed? || (reply.Ignored? && lookupFails) ==> r.None?
  {
    match reply
    case Inserted(row) => Some(row.id)
    case UpsertFailed(_) => None
    case Ignored =>
      if lookupFails then None
      else match FindProfile(t.profiles, steam64)
        case None => None
        case Some(p) => Some(p.id)
  }

  /** The ids the link resolves to, as `getSteamIDsFromProfileUrl` finds them. */
  function IdsOf(form: Utils.Form, probe: SteamApis.Probe, vanity: string -> SteamApis.VanityReply): Result<SteamApis.SteamIds> {
    SteamApis.GetSteamIds(Utils.Field(form, "steam_url"), probe, vanity)
  }

  /** The steps after the profile id is known: the report row, then the
      evidence; a failure leaves what was written before it. */
  function FileReport(t: Tables, form: Utils.Form, profileId: ProfileId, steam64: string,
                      hashIp: string -> string, faults: Faults): (r: (Tables, ReportResult))
    ensures faults.report.Some? ==> r == (t, ReportFailed(faults.report.value))
    ensures r.0.profiles == t.profiles && r.0.nextId == t.nextId
    ensures faults.report.None? ==> r.0.reports == t.reports + [ReportRow(profileId, hashIp(PlaceholderIp))]
    ensures t.evidence <= r.0.evidence && |r.0.evidence| <= |t.evidence| + 1
    ensures r.1 == ReportSubmitted <==>
      faults.report.None? && faults.evidence.None? && ParseEvidenceFields(form).evidenceType != ""
    ensures r.1 == ReportSubmitted ==>
      r.0.evidence == t.evidence + [EvidenceRowFor(ParseEvidenceFields(form), EvidenceArgs(profileId, Some(steam64)))]
    ensures r.1 != ReportSubmitted ==> r.0.evidence == t.evidence
  {
    if faults.report.Some? then (t, ReportFailed(faults.report.value))
    else
      var t1 := t.(reports := t.reports + [ReportRow(profileId, hashIp(PlaceholderIp))]);
      var (t2, evidence) := SubmitEvidenceSpec(t1, form, EvidenceArgs(profileId, Some(steam64)), faults.evidence);
      match evidence
      case Submitted => (t2, ReportSubmitted)
      case Skipped(_) => (t2, ReportFailed(EvidenceInsertFailed))
      case Failed(e) => (t2, ReportFailed(e))
  }

  /** The steps once the link has resolved: the upsert, the id, and the rest. */
  function ReportResolved(t: Tables, form: Utils.Form, ids: SteamApis.SteamIds,
                          hashIp: string -> string, faults: Faults): (r: (Tables, ReportResult))
    ensures t.profiles <= r.0.profiles && |r.0.profiles| <= |t.profiles| + 1
    ensures t.reports <= r.0.reports && |r.0.reports| <= |t.reports| + 1
    ensures t.evidence <= r.0.evidence && |r.0.evidence| <= |t.evidence| + 1
    ensures forall i :: |t.reports| <= i < |r.0.reports| ==> r.0.reports[i].reporterIpHash == hashIp(PlaceholderIp)
    ensures r.1 == ReportSubmitted ==> |r.0.reports| == |t.reports| + 1 && |r.0.evidence| == |t.evidence| + 1
    ensures WellFormed(t) ==> WellFormed(r.0)
  {
    var (t1, reply) := Upsert(t, ids.steamId64, ids.steamId32, Utils.Field(form, "steam_url"), faults.upsert);
    if reply.UpsertFailed? then (t1, ReportFailed(reply.message))
    else
      var profileId := ProfileIdAfter(t1, reply, ids.steamId64, faults.lookupFails);
      if profileId.None? then (t1, ReportFailed(CouldNotUpsert))
      else FileReport(t1, form, profileId.value, ids.steamId64, hashIp, faults)
  }

  /** The profile step's two ways out: an upsert error is rethrown and becomes
      the reply, and an id the re-read cannot find fails with "Could not upsert
      profile."; neither writes a report or evidence row. The re-read only runs,
      and so can only fail, when the 64-bit id is already stored; otherwise
      the report row is inserted. */
  lemma ProfileStepErrors(t: Tables, form: Utils.Form, ids: SteamApis.SteamIds,
                          hashIp: string -> string, faults: Faults)
    ensures faults.upsert.Some? ==>
      ReportResolved(t, form, ids, hashIp, faults) == (t, ReportFailed(faults.upsert.value))
    ensures faults.upsert.None? && faults.lookupFails && FindProfile(t.profiles, ids.steamId64).Some? ==>
      ReportResolved(t, form, ids, hashIp, faults) == (t, ReportFailed(CouldNotUpsert))
    ensures faults.upsert.None? && !(faults.lookupFails && FindProfile(t.profiles, ids.steamId64).Some?)
            && faults.report.None? ==>
      |ReportResolved(t, form, ids, hashIp, faults).0.reports| == |t.reports| + 1
  {
  }

  /** The tables after the action, and its reply. */
  function SubmitProfileReportSpec(t: Tables, form: Utils.Form, probe: SteamApis.Probe,
                                   vanity: string -> SteamApis.VanityReply,
                                   hashIp: string -> string, faults: Faults): (r: (Tables, ReportResult))
    ensures IdsOf(form, probe, vanity).Err? ==> r == (t, ReportFailed(IdsOf(form, probe, vanity).message))
    ensures IdsOf(form, probe, vanity).Ok? ==> r == ReportResolved(t, form, IdsOf(form, probe, vanity).value, hashIp, faults)
    ensures t.profiles <= r.0.profiles && |r.0.profiles| <= |t.profiles| + 1
    ensures t.reports <= r.0.reports && |r.0.reports| <= |t.reports| + 1
    ensures t.evidence <= r.0.evidence && |r.0.evidence| <= |t.evidence| + 1
    ensures forall i :: |t.reports| <= i < |r.0.reports| ==> r.0.reports[i].reporterIpHash == hashIp(PlaceholderIp)
    ensures r.1 == ReportSubmitted ==> |r.0.reports| == |t.reports| + 1 && |r.0.evidence| == |t.evidence| + 1
    ensures WellFormed(t) ==> WellFormed(r.0)
  {
    match IdsOf(form, probe, vanity)
    case Err(m) => (t, ReportFailed(m))
    case Ok(ids) => ReportResolved(t, form, ids, hashIp, faults)
  }

  method SubmitProfileReport(db: Database, form: Utils.Form, probe: SteamApis.Probe,
                             vanity: string -> SteamApis.VanityReply,
                             hashIp: string -> string, faults: Faults)
    returns (result: ReportResult)
    modifies db
    ensures (db.State(), result) == SubmitProfileReportSpec(old(db.State()), form, probe, vanity, hashIp, faults)
  {
    var ids := SteamApis.GetSteamIds(Utils.Field(form, "steam_url"), probe, vanity);
    if ids.Err? {
      return ReportFailed(ids.message);
    }
    result := SubmitResolved(db, form, ids.value, hashIp, faults);
  }

  /** The upsert and the id lookup, then the report and the evidence. */
  method SubmitResolved(db: Database, form: Utils.Form, ids: SteamApis.SteamIds,
                        hashIp: string -> string, faults: Faults)
    returns (result: ReportResult)
    modifies db
    ensures (db.State(), result) == ReportResolved(old(db.State()), form, ids, hashIp, faults)
  {
    var reply := db.UpsertProfile(ids.steamId64, ids.steamId32, Utils.Field(form, "steam_url"), faults.upsert);
    var profileId: Option<ProfileId>;
    if reply.Ignored? {
      var existing := db.SelectProfile(ids.steamId64, faults.lookupFails);
      profileId := if existing.Some? then Some(existing.value.id) else None;
    } else {
      if reply.UpsertFailed? {
        return ReportFailed(reply.message);
      }
      profileId := Some(reply.row.id);
    }
    assert profileId == ProfileIdAfter(db.State(), reply, ids.steamId64, faults.lookupFails);
    if profileId.None? {
      return ReportFailed(CouldNotUpsert);
    }
    result := SubmitReportRows(db, form, profileId.value, ids.steamId64, hashIp, faults);
  }

  /** The report row, then the evidence through the local action. */
  method SubmitReportRows(db: Database, form: Utils.Form, profileId: ProfileId, steam64: string,
                          hashIp: string -> string, faults: Faults)
    returns (result: ReportResult)
    modifies db
    ensures (db.State(), result) == FileReport(old(db.State()), form, profileId, steam64, hashIp, faults)
  {
    var reportError := db.InsertReport(ReportRow(profileId, hashIp(PlaceholderIp)), faults.report);
    if reportError.Some? {
      return ReportFailed(reportError.value);
    }
    var evidence := SubmitEvidence(db, form, EvidenceArgs(profileId, Some(steam64)), faults.evidence);
    if !evidence.Submitted? {
      return ReportFailed(if evidence.Failed? then evidence.error else EvidenceInsertFailed);
    }
    return ReportSubmitted;
  }

  /** No faults: every step of the action succeeds. */
  const NoFaults := Faults(None, false, None, None)

  /** A successful report links one new report row and one new evidence row
      to the profile stored under the resolved 64-bit id. */
  lemma {:induction false} SubmittedRowsLinkProfile(t: Tables, form: Utils.Form, ids: SteamApis.SteamIds,
                                                    hashIp: string -> string, faults: Faults)
    requires ReportResolved(t, form, ids, hashIp, faults).1 == ReportSubmitted
    ensures var r := ReportResolved(t, form, ids, hashIp, faults).0;
      && FindProfile(r.profiles, ids.steamId64).Some?
      && r.reports[|t.reports|] == ReportRow(FindProfile(r.profiles, ids.steamId64).value.id, hashIp(PlaceholderIp))
      && r.evidence[|t.evidence|].profileId == FindProfile(r.profiles, ids.steamId64).value.id
      && r.evidence[|t.evidence|].steamId64 == Some(ids.steamId64)
      && r.evidence[|t.evidence|].evidenceType == ParseEvidenceFields(form).evidenceType
  {
    var (t1, reply) := Upsert(t, ids.steamId64, ids.steamId32, Utils.Field(form, "steam_url"), faults.upsert);
    var pid := ProfileIdAfter(t1, reply, ids.steamId64, faults.lookupFails).value;
    var r := FileReport(t1, form, pid, ids.steamId64, hashIp, faults).0;
    FindPrefix(t1.profiles, r.profiles, ids.steamId64);
    if reply.Inserted? {
      FindInserted(t.profiles, reply.row);
    }
  }

  /** Once a row is appended under an id no earlier row has, the lookup finds it. */
  lemma {:induction false} FindInserted(profiles: seq<ProfileRow>, row: ProfileRow)
    requires FindProfile(profiles, row.steamId64).None?
    ensures FindProfile(profiles + [row], row.steamId64) == Some(row)
  {
    if profiles != [] {
      assert (profiles + [row])[1..] == profiles[1..] + [row];
      FindInserted(profiles[1..], row);
    }
  }

  /** Nothing is written unless the link resolves to Steam ids, and the
      message of the failure is the reply. */
  lemma RejectedLinkWritesNothing(t: Tables, form: Utils.Form, vanity: string -> SteamApis.VanityReply,
                                  hashIp: string -> string, faults: Faults)
    requires !StartsWith(Lower(Trim(Utils.Field(form, "steam_url"))), "http")
    ensures SubmitProfileReportSpec(t, form, SteamApis.Reachable, vanity, hashIp, faults)
         == (t, ReportFailed(SteamApis.InvalidUrl))
  {
  }

  /** No rollback: when the form names no evidence, the profile and the
      report row stay written although the action reports a failure. */
  lemma NoRollbackWithoutEvidence(t: Tables, form: Utils.Form, ids: SteamApis.SteamIds, hashIp: string -> string)
    requires Utils.ParseEvidenceFields(form).evidenceType == ""
    ensures var r := ReportResolved(t, form, ids, hashIp, NoFaults);
      && r.1 == ReportFailed(EvidenceInsertFailed)
      && |r.0.reports| == |t.reports| + 1
      && FindProfile(r.0.profiles, ids.steamId64).Some?
      && r.0.evidence == t.evidence
  {
    LocalParseAgrees(form);
  }

  /** An evidence insert error is passed on as the reply while the report row
      stays. */
  lemma EvidenceErrorKeepsReport(t: Tables, form: Utils.Form, ids: SteamApis.SteamIds,
                                 hashIp: string -> string, e: string)
    requires Utils.ParseEvidenceFields(form).evidenceType != ""
    ensures var r := ReportResolved(t, form, ids, hashIp, NoFaults.(evidence := Some(e)));
      r.1 == ReportFailed(e) && |r.0.reports| == |t.reports| + 1 && r.0.evidence == t.evidence
  {
    LocalParseAgrees(form);
  }

  /** Reporting a profile that is already stored adds no profile and files
      the report under the stored profile's id. */
  lemma ExistingProfileReused(t: Tables, form: Utils.Form, ids: SteamApis.SteamIds,
                              hashIp: string -> string, p: ProfileRow)
    requires FindProfile(t.profiles, ids.steamId64) == Some(p)
    ensures var r := ReportResolved(t, form, ids, hashIp, NoFaults).0;
      r.profiles == t.profiles && r.nextId == t.nextId
      && r.reports == t.reports + [ReportRow(p.id, hashIp(PlaceholderIp))]
  {
  }

  /** Submitting the same report twice stores the profile once and files two
      identical reports under the same id. */
  lemma {:induction false} ResubmissionSharesProfile(t: Tables, form: Utils.Form, ids: SteamApis.SteamIds,
                                                     hashIp: string -> string)
    ensures var t1 := ReportResolved(t, form, ids, hashIp, NoFaults).0;
      var t2 := ReportResolved(t1, form, ids, hashIp, NoFaults).0;
      && |t2.profiles| == |t1.profiles|
      && |t2.reports| == |t.reports| + 2
      && t2.reports[|t.reports|] == t2.reports[|t.reports| + 1]
  {
    var t1 := ReportResolved(t, form, ids, hashIp, NoFaults).0;
    var (u1, reply) := Upsert(t, ids.steamId64, ids.steamId32, Utils.Field(form, "steam_url"), None);
    var p := FindProfile(u1.profiles, ids.steamId64).value;
    var pid := ProfileIdAfter(u1, reply, ids.steamId64, false).value;
    if reply.Inserted? {
      FindInserted(t.profiles, reply.row);
    }
    assert pid == p.id;
    assert t1.reports == t.reports + [ReportRow(p.id, hashIp(PlaceholderIp))];
    assert FindProfile(t1.profiles, ids.steamId64) == Some(p) by {
      FindPrefix(u1.profiles, t1.profiles, ids.steamId64);
    }
    ExistingProfileReused(t1, form, ids, hashIp, p);
  }

  /** The lookup gives the same answer on a longer table when it already
      found a row in the shorter one. */
  lemma {:induction false} FindPrefix(short: seq<ProfileRow>, long: seq<ProfileRow>, steam64: string)
    requires short <= long && FindProfile(short, steam64).Some?
    ensures FindProfile(long, steam64) == FindProfile(short, steam64)
  {
    if short[0].steamId64 != steam64 {
      FindPrefix(short[1..], long[1..], steam64);
    }
  }
}
