/**
 * The three database tables the submission actions write (`profiles`,
 * `reports`, `evidence`) and the writes they issue. A write that the database
 * rejects is decided by an input (`fault`), standing for the error the
 * database client would return.
 */
module Store {
  import opened Text

  type ProfileId = nat

  datatype ProfileRow = ProfileRow(id: ProfileId, steamId64: string, steamId32: string, steamUrl: string)

  datatype ReportRow = ReportRow(profileId: ProfileId, reporterIpHash: string)

  datatype EvidenceRow = EvidenceRow(
    profileId: ProfileId,
    steamId64: Option<string>,
    evidenceType: string,
    evidenceUrl: Option<string>,
    content: Option<string>,
    game: Option<string>,
    reporter: Option<string>)

  /** The tables, and the id the database gives the next new profile. */
  datatype Tables = Tables(profiles: seq<ProfileRow>, reports: seq<ReportRow>,
                           evidence: seq<EvidenceRow>, nextId: ProfileId)

  /** `steam_id_64` is unique (it is the upsert's conflict target), and
      profile ids are distinct and below `nextId`. */
  predicate WellFormed(t: Tables) {
    && (forall i, j :: 0 <= i < j < |t.profiles| ==> t.profiles[i].steamId64 != t.profiles[j].steamId64)
    && (forall i, j :: 0 <= i < j < |t.profiles| ==> t.profiles[i].id != t.profiles[j].id)
    && (forall i :: 0 <= i < |t.profiles| ==> t.profiles[i].id < t.nextId)
  }

  /** The profile with this 64-bit id, as `.eq("steam_id_64", …).single()`
      finds it. */
  function FindProfile(profiles: seq<ProfileRow>, steam64: string): (r: Option<ProfileRow>)
    ensures r.Some? ==> r.value in profiles && r.value.steamId64 == steam64
    ensures r.None? <==> forall i :: 0 <= i < |profiles| ==> profiles[i].steamId64 != steam64
  {
    if profiles == [] then None
    else if profiles[0].steamId64 == steam64 then Some(profiles[0])
    else FindProfile(profiles[1..], steam64)
  }

  /** What `upsert(…, { onConflict: "steam_id_64", ignoreDuplicates: true })`
      returns: the new row, nothing when the id is already there, or an error. */
  datatype UpsertReply = Inserted(row: ProfileRow) | Ignored | UpsertFailed(message: string)

  function Upsert(t: Tables, steam64: string, steam32: string, url: string, fault: Option<string>): (r: (Tables, UpsertReply))
    ensures r.1.UpsertFailed? <==> fault.Some?
    ensures r.1.Ignored? <==> fault.None? && FindProfile(t.profiles, steam64).Some?
    ensures !r.1.Inserted? ==> r.0 == t
    ensures r.1.Inserted? ==>
      && r.1.row.steamId64 == steam64 && r.1.row.steamId32 == steam32 && r.1.row.steamUrl == url
      && r.0 == t.(profiles := t.profiles + [r.1.row], nextId := t.nextId + 1)
    ensures fault.None? ==> FindProfile(r.0.profiles, steam64).Some?
    ensures WellFormed(t) ==> WellFormed(r.0)
  {
    if fault.Some? then (t, UpsertFailed(fault.value))
    else if FindProfile(t.profiles, steam64).Some? then (t, Ignored)
    else
      var row := ProfileRow(t.nextId, steam64, steam32, url);
      var t' := t.(profiles := t.profiles + [row], nextId := t.nextId + 1);
      assert t'.profiles[|t.profiles|] == row;
      (t', Inserted(row))
  }

  /** Upserting the same 64-bit id again changes nothing. */
  lemma UpsertIdempotent(t: Tables, steam64: string, steam32: string, url: string,
                         steam32': string, url': string)
    ensures var t1 := Upsert(t, steam64, steam32, url, None).0;
      Upsert(t1, steam64, steam32', url', None) == (t1, Ignored)
  {
  }

  class Database {
    var profiles: seq<ProfileRow>
    var reports: seq<ReportRow>
    var evidence: seq<EvidenceRow>
    var nextId: ProfileId

    function State(): Tables
      reads this
    {
      Tables(profiles, reports, evidence, nextId)
    }

    constructor()
      ensures State() == Tables([], [], [], 0)
      ensures WellFormed(State())
    {
      profiles, reports, evidence, nextId := [], [], [], 0;
    }

    method UpsertProfile(steam64: string, steam32: string, url: string, fault: Option<string>)
      returns (reply: UpsertReply)
      modifies this
      ensures (State(), reply) == Upsert(old(State()), steam64, steam32, url, fault)
    {
      if fault.Some? {
        return UpsertFailed(fault.value);
      }
      if FindProfile(profiles, steam64).Some? {
        return Ignored;
      }
      var row := ProfileRow(nextId, steam64, steam32, url);
      profiles := profiles + [row];
      nextId := nextId + 1;
      return Inserted(row);
    }

    /** `select("*").eq("steam_id_64", steam64).single()`; `fails` stands for
        a failed read, which yields no data. */
    method SelectProfile(steam64: string, fails: bool) returns (row: Option<ProfileRow>)
      ensures fails ==> row.None?
      ensures !fails ==> row == FindProfile(profiles, steam64)
    {
      if fails {
        return None;
      }
      row := FindProfile(profiles, steam64);
    }

    method InsertReport(row: ReportRow, fault: Option<string>) returns (error: Option<string>)
      modifies this
      ensures error == fault
      ensures State() == if fault.Some? then old(State()) else old(State()).(reports := old(reports) + [row])
    {
      if fault.Some? {
        return fault;
      }
      reports := reports + [row];
      return None;
    }

    method InsertEvidence(row: EvidenceRow, fault: Option<string>) returns (error: Option<string>)
      modifies this
      ensures error == fault
      ensures State() == if fault.Some? then old(State()) else old(State()).(evidence := old(evidence) + [row])
    {
      if fault.Some? {
        return fault;
      }
      evidence := evidence + [row];
      return None;
    }
  }
}
