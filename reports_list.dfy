/**
 * components/reports/reports-list.tsx: the reports of a profile, newest
 * first. `timeOf` is the time `new Date(reported_at).getTime()` gives.
 */
module ReportsList {
  import opened Text
  import NewestFirst

  datatype Report = Report(id: string, reporterIpHash: string, reportedAt: string)

  /** `[...reports].sort(...)`: a sorted copy. */
  function SortedReports(reports: seq<Report>, timeOf: string -> int): (r: seq<Report>)
    ensures multiset(r) == multiset(reports)
    ensures forall i, j :: 0 <= i < j < |r| ==> timeOf(r[i].reportedAt) >= timeOf(r[j].reportedAt)
  {
    var r := NewestFirst.Sort(reports, (x: Report) => timeOf(x.reportedAt));
    assert NewestFirst.Descending(r, (x: Report) => timeOf(x.reportedAt));
    r
  }

  /** The first eight characters and an ellipsis. */
  function Shortened(s: string): (r: string)
    ensures |r| == |Take(s, 8)| + 3 && r[..|r| - 3] == Take(s, 8) && r[|r| - 3..] == "..."
  {
    Take(s, 8) + "..."
  }

  datatype Row = Row(idText: string, reporterText: string, status: string)
               | NoReports(text: string)

  function RowOf(r: Report): Row {
    Row(Shortened(r.id), Shortened(r.reporterIpHash), "Verified")
  }

  /** `ReportsList`: one row per report in newest-first order, or a single
      message row. */
  function ReportsList(reports: seq<Report>, timeOf: string -> int): (rows: seq<Row>)
    ensures reports == [] ==> rows == [NoReports("No reports found.")]
    ensures reports != [] ==> |rows| == |reports|
    ensures reports != [] ==> forall i :: 0 <= i < |rows| ==> rows[i].Row? && rows[i].status == "Verified"
    ensures reports != [] ==> forall i :: 0 <= i < |rows| ==> rows[i] == RowOf(SortedReports(reports, timeOf)[i])
  {
    var sorted := SortedReports(reports, timeOf);
    if |sorted| == 0 then [NoReports("No reports found.")]
    else seq(|sorted|, i requires 0 <= i < |sorted| => RowOf(sorted[i]))
  }
}
