/** The hypervisor panel: the simulated refresh of CPU and RAM load, the
    per-node chart series, the node count and the load-bar colours. */
module Hypervisors {
  import opened Common

  datatype HypervisorStatus = Up | Down | Maintenance

  datatype Hypervisor = Hypervisor(
    id: string,
    hostname: string,
    status: HypervisorStatus,
    ip: string,
    version: string,
    cpuUsage: int,
    ramUsage: int,
    diskUsage: int)

  /** A draw of the random source: a real number in [0, 1). */
  predicate IsSample(x: real) {
    0.0 <= x < 1.0
  }

  /** `Math.floor(x * 100)` for a sample: a whole percentage from 0 to 99. */
  function Percent(x: real): (p: int)
    requires IsSample(x)
    ensures 0 <= p <= 99
    ensures p as real <= x * 100.0 < p as real + 1.0
  {
    (x * 100.0).Floor
  }

  /** Refresh: every node keeps its place and all its fields except CPU and
      RAM load, which are redrawn. The source draws twice per node, CPU
      first, so node `i` uses `samples[2i]` and `samples[2i + 1]`. */
  function Refresh(hs: seq<Hypervisor>, samples: seq<real>): (r: seq<Hypervisor>)
    requires |samples| == 2 * |hs|
    requires forall k :: 0 <= k < |samples| ==> IsSample(samples[k])
    ensures |r| == |hs|
    ensures forall i :: 0 <= i < |hs| ==>
      && r[i].id == hs[i].id && r[i].hostname == hs[i].hostname
      && r[i].status == hs[i].status && r[i].ip == hs[i].ip
      && r[i].version == hs[i].version && r[i].diskUsage == hs[i].diskUsage
      && 0 <= r[i].cpuUsage <= 99 && 0 <= r[i].ramUsage <= 99
      && r[i].cpuUsage == Percent(samples[2 * i])
      && r[i].ramUsage == Percent(samples[2 * i + 1])
  {
    seq(|hs|, i requires 0 <= i < |hs| =>
      hs[i].(cpuUsage := Percent(samples[2 * i]), ramUsage := Percent(samples[2 * i + 1])))
  }

  /** The bar chart's data: one category per node and three series (CPU, RAM,
      disk), each with one value per node, in list order. */
  datatype Chart = Chart(categories: seq<string>, series: seq<(string, seq<int>)>)

  function ChartData(hs: seq<Hypervisor>): (c: Chart)
    ensures |c.categories| == |hs| && |c.series| == 3
    ensures c.series[0].0 == "CPU Usage" && c.series[1].0 == "RAM Usage" && c.series[2].0 == "Disk Usage"
    ensures forall s :: 0 <= s < 3 ==> |c.series[s].1| == |hs|
    ensures forall i :: 0 <= i < |hs| ==>
      && c.categories[i] == hs[i].hostname
      && c.series[0].1[i] == hs[i].cpuUsage
      && c.series[1].1[i] == hs[i].ramUsage
      && c.series[2].1[i] == hs[i].diskUsage
  {
    Chart(seq(|hs|, i requires 0 <= i < |hs| => hs[i].hostname),
          [ ("CPU Usage", seq(|hs|, i requires 0 <= i < |hs| => hs[i].cpuUsage)),
            ("RAM Usage", seq(|hs|, i requires 0 <= i < |hs| => hs[i].ramUsage)),
            ("Disk Usage", seq(|hs|, i requires 0 <= i < |hs| => hs[i].diskUsage)) ])
  }

  /** The "Total Nodes" card. */
  function TotalNodes(hs: seq<Hypervisor>): nat {
    |hs|
  }

  /** A refresh changes neither the node count, nor the chart's categories,
      nor its disk series; every CPU and RAM value it plots is below 100. */
  lemma RefreshKeepsLayout(hs: seq<Hypervisor>, samples: seq<real>)
    requires |samples| == 2 * |hs|
    requires forall k :: 0 <= k < |samples| ==> IsSample(samples[k])
    ensures var r := Refresh(hs, samples);
      && TotalNodes(r) == TotalNodes(hs)
      && ChartData(r).categories == ChartData(hs).categories
      && ChartData(r).series[2] == ChartData(hs).series[2]
      && forall i :: 0 <= i < |r| ==> ChartData(r).series[0].1[i] < 100 && ChartData(r).series[1].1[i] < 100
  {
    var r := Refresh(hs, samples);
    assert ChartData(r).categories == ChartData(hs).categories;
    assert ChartData(r).series[2].1 == ChartData(hs).series[2].1;
  }

  /** The CPU bar's colour: red above 80%, blue otherwise. */
  function CpuBarColor(usage: int): (c: Color)
    ensures c == Red <==> usage > 80
    ensures c == Red || c == Blue
  {
    if usage > 80 then Red else Blue
  }

  /** The RAM bar's colour: red above 80%, purple otherwise. */
  function RamBarColor(usage: int): (c: Color)
    ensures c == Red <==> usage > 80
    ensures c == Red || c == Purple
  {
    if usage > 80 then Red else Purple
  }

  /** The status badge: up is green, down is red, maintenance orange. */
  function StatusColor(s: HypervisorStatus): (c: Color)
    ensures c == Green <==> s == Up
    ensures c == Red <==> s == Down
    ensures c == Orange <==> s == Maintenance
  {
    match s
    case Up => Green
    case Down => Red
    case Maintenance => Orange
  }
}
