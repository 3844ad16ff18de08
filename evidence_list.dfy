/**
 * components/evidence/evidence-list.tsx: the evidence of a profile, newest
 * first, with a type badge and the submitter. `timeOf` is the time
 * `new Date(created_at).getTime()` gives.
 */
module EvidenceList {
  import opened Text
  import NewestFirst

  datatype Evidence = Evidence(id: string, evidenceType: string, evidenceUrl: Option<string>,
                               content: Option<string>, createdAt: string, userId: Option<string>)

  /** `[...evidence].sort(...)`: a sorted copy. */
  function SortedEvidence(evidence: seq<Evidence>, timeOf: string -> int): (r: seq<Evidence>)
    ensures multiset(r) == multiset(evidence)
    ensures forall i, j :: 0 <= i < j < |r| ==> timeOf(r[i].createdAt) >= timeOf(r[j].createdAt)
  {
    var r := NewestFirst.Sort(evidence, (e: Evidence) => timeOf(e.createdAt));
    assert NewestFirst.Descending(r, (e: Evidence) => timeOf(e.createdAt));
    r
  }

  /** Evidence submitted at the same time keeps its order. */
  lemma SameTimeKeepsOrder(evidence: seq<Evidence>, timeOf: string -> int, t: int)
    ensures var time := (e: Evidence) => timeOf(e.createdAt);
      NewestFirst.WithTime(SortedEvidence(evidence, timeOf), time, t) == NewestFirst.WithTime(evidence, time, t)
  {
    NewestFirst.SortIsStable(evidence, (e: Evidence) => timeOf(e.createdAt), t);
  }

  /** `charAt(0).toUpperCase() + slice(1)`. */
  function TypeLabel(evidenceType: string): (r: string)
    ensures |r| == |evidenceType|
    ensures evidenceType != "" ==> r[0] == UpperChar(evidenceType[0]) && r[1..] == evidenceType[1..]
  {
    if evidenceType == "" then "" else [UpperChar(evidenceType[0])] + evidenceType[1..]
  }

  /** "Anonymous" without a user id (null or empty), else "User " and the
      first eight characters of the id. */
  function Submitter(userId: Option<string>): (r: string)
    ensures userId.None? || userId.value == "" ==> r == "Anonymous"
    ensures userId.Some? && userId.value != "" ==>
      |r| == 8 + |Take(userId.value, 8)| && StartsWith(r, "User ") && r[5..|r| - 3] == Take(userId.value, 8)
  {
    if userId.None? || userId.value == "" then "Anonymous"
    else
      var r := "User " + Take(userId.value, 8) + "...";
      assert r[..5] == "User ";
      assert r[5..|r| - 3] == Take(userId.value, 8);
      r
  }

  datatype Item = Item(badge: string, submitter: string, evidence: Evidence)

  datatype ListView = EmptyMessage(text: string) | Items(items: seq<Item>)

  function ItemOf(e: Evidence): Item {
    Item(TypeLabel(e.evidenceType), Submitter(e.userId), e)
  }

  /** `EvidenceList`. */
  function EvidenceList(evidence: seq<Evidence>, timeOf: string -> int): (r: ListView)
    ensures r.EmptyMessage? <==> evidence == []
    ensures r.EmptyMessage? ==> r.text == "No evidence has been submitted yet."
    ensures r.Items? ==> |r.items| == |evidence|
    ensures r.Items? ==> forall i :: 0 <= i < |r.items| ==> r.items[i] == ItemOf(SortedEvidence(evidence, timeOf)[i])
  {
    var sorted := SortedEvidence(evidence, timeOf);
    if |sorted| == 0 then EmptyMessage("No evidence has been submitted yet.")
    else Items(seq(|sorted|, i requires 0 <= i < |sorted| => ItemOf(sorted[i])))
  }
}
