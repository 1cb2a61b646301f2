/** The dashboard: three figures computed from the team-workload chart (the
    number of teams, the number of requests and the rounded average per
    team) and the chart panel, which reports that there is no data when the
    chart is empty. */
module Dashboard {
  import opened Records
  import opened Lifecycle
  import opened Stats

  /** `data.reduce((sum, d) => sum + d.value, acc)`: a left fold over the
      entries, which adds the (right-folded) sum of the values to `acc`. */
  function Reduce(data: seq<StatEntry>, acc: int): (r: int)
    ensures r == acc + SumOfValues(data)
  {
    if data == [] then acc else Reduce(data[1..], acc + data[0].value)
  }

  /** The "Total Requests" figure: the sum of the chart's values. */
  function TotalRequests(data: seq<StatEntry>): (total: int)
    ensures total == SumOfValues(data)
  {
    Reduce(data, 0)
  }

  /** The "Average / Team" figure: 0 for no teams, otherwise total / teams
      rounded to the nearest integer, halves rounded up. */
  function Average(total: int, teams: nat): (avg: int)
    ensures teams == 0 ==> avg == 0
    ensures teams > 0 ==> 2 * teams * avg <= 2 * total + teams < 2 * teams * (avg + 1)
  {
    if teams == 0 then 0 else (2 * total + teams) / (2 * teams)
  }

  /** The three figures. */
  datatype Figures = Figures(teams: nat, total: int, average: int)

  function FiguresOf(data: seq<StatEntry>): (f: Figures)
    ensures f.teams == |data|
    ensures f.total == SumOfValues(data)
    ensures f.average == Average(f.total, f.teams)
  {
    var total := TotalRequests(data);
    Figures(|data|, total, Average(total, |data|))
  }

  /** The chart card: a placeholder when there are no entries, the bar chart otherwise. */
  datatype Panel = NoData | BarChart(data: seq<StatEntry>)

  function PanelOf(data: seq<StatEntry>): (p: Panel)
    ensures p == NoData <==> data == []
    ensures p.BarChart? ==> p.data == data
  {
    if |data| == 0 then NoData else BarChart(data)
  }

  /** A rounded average of counts that are each at least one is at least one. */
  lemma AverageAtLeastOne(total: int, teams: nat)
    requires teams > 0 && total >= teams
    ensures Average(total, teams) >= 1
  {
  }

  /** Fed the workload chart counted with the intended step, the dashboard counts every
      request exactly once, shows one team per bucket, shows the placeholder
      exactly when there are no requests, and otherwise averages at least one
      request per team. */
  lemma DashboardOfStats(t: Tables, teams: map<nat, Team>, n: nat)
    requires KeyedById(t.requests)
    requires forall id :: id in t.requests ==> id < n
    ensures var data := StatsChart(t, teams, n);
      var f := FiguresOf(data);
      && f.total == |t.requests|
      && f.teams <= |t.requests|
      && (PanelOf(data) == NoData <==> t.requests == map[])
      && (t.requests != map[] ==> f.average >= 1)
  {
    var data := StatsChart(t, teams, n);
    StatsChartFacts(t, teams, n);
    ValuesAtLeastOne(data);
    if t.requests != map[] {
      var id :| id in t.requests;
      assert data != [];
      AverageAtLeastOne(|t.requests|, |data|);
    } else {
      assert |t.requests| == 0;
    }
  }

  /** Entries whose values are each at least one add up to at least their number. */
  lemma {:induction false} ValuesAtLeastOne(data: seq<StatEntry>)
    requires forall k :: 0 <= k < |data| ==> data[k].value >= 1
    ensures SumOfValues(data) >= |data|
  {
    if data != [] {
      ValuesAtLeastOne(data[1..]);
    }
  }
}
