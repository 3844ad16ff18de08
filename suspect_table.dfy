/**
 * components/table/suspect-table.tsx: the table of reported profiles.
 */
module SuspectTable {
  import opened Text

  datatype Suspect = Suspect(id: string, steamName: string, steamId64: string, steamUrl: string,
                             avatarUrl: Option<string>, reportCount: int, banStatus: bool)

  /** `Math.min(report_count * 10, 100)`: ten percent per report. */
  function ProgressWidth(reportCount: int): (w: int)
    ensures w <= 100
    ensures reportCount <= 10 ==> w == reportCount * 10
    ensures w == 100 <==> reportCount >= 10
  {
    if reportCount * 10 <= 100 then reportCount * 10 else 100
  }

  /** The width grows with the report count. */
  lemma ProgressMonotone(c1: int, c2: int)
    requires c1 <= c2
    ensures ProgressWidth(c1) <= ProgressWidth(c2)
  {
  }

  /** The status badge: banned or active. */
  function StatusText(banStatus: bool): (r: string)
    ensures r == "Banned" <==> banStatus
    ensures r == "Active" <==> !banStatus
  {
    if banStatus then "Banned" else "Active"
  }

  /** The avatar cell: the image when an address is given, else the first
      character of the name (`charAt(0)`, empty for an empty name). */
  datatype Avatar = AvatarImage(src: string) | Letter(text: string)

  function AvatarOf(s: Suspect): (r: Avatar)
    ensures s.avatarUrl.None? || s.avatarUrl.value == "" ==>
      r.Letter? && |r.text| <= 1 && (s.steamName != "" ==> r.text == [s.steamName[0]])
  {
    if s.avatarUrl.Some? && s.avatarUrl.value != "" then AvatarImage(s.avatarUrl.value)
    else Letter(Take(s.steamName, 1))
  }

  datatype Row = Row(avatar: Avatar, width: int, status: string)

  datatype TableView = EmptyRow(text: string) | Rows(rows: seq<Row>)

  function Table(suspects: seq<Suspect>): (r: TableView)
    ensures r.EmptyRow? <==> suspects == []
    ensures r.EmptyRow? ==> r.text == "No reported profiles found."
    ensures r.Rows? ==> |r.rows| == |suspects|
    ensures r.Rows? ==> forall i :: 0 <= i < |suspects| ==>
      r.rows[i].width <= 100 && (r.rows[i].status == "Banned" <==> suspects[i].banStatus)
  {
    if suspects == [] then EmptyRow("No reported profiles found.")
    else Rows(seq(|suspects|, i requires 0 <= i < |suspects| =>
      Row(AvatarOf(suspects[i]), ProgressWidth(suspects[i].reportCount), StatusText(suspects[i].banStatus))))
  }
}
