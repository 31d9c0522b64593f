/** lib/report-generator.ts: `generatePDFReport`. The statistics block, the
    fixed-threshold anomaly list, the page loop that slices the rendered image
    over A4 pages, the file name, and the temporary container that is attached
    to the document for the rendering and always removed afterwards. The
    rendering itself (html2canvas, jsPDF) is an input: the image height, or
    the error it failed with. */
module ReportGenerator {
  import opened Wrappers
  import opened Records
  import opened Utils
  import Text

  /** `data.map(d => d.voltage || 0)` and its siblings. */
  function Voltages(data: seq<DataPoint>): (r: seq<real>)
    ensures |r| == |data| && forall i :: 0 <= i < |data| ==> r[i] == OrZero(data[i].voltage)
  {
    seq(|data|, i requires 0 <= i < |data| => OrZero(data[i].voltage))
  }

  function Currents(data: seq<DataPoint>): (r: seq<real>)
    ensures |r| == |data| && forall i :: 0 <= i < |data| ==> r[i] == OrZero(data[i].current)
  {
    seq(|data|, i requires 0 <= i < |data| => OrZero(data[i].current))
  }

  function Powers(data: seq<DataPoint>): (r: seq<real>)
    ensures |r| == |data| && forall i :: 0 <= i < |data| ==> r[i] == OrZero(data[i].power)
  {
    seq(|data|, i requires 0 <= i < |data| => OrZero(data[i].power))
  }

  /** `{ avg: sum / length, max: Math.max(...xs), min: Math.min(...xs) }` with no
      guard for the empty list: there the three figures are NaN, -Infinity and
      Infinity, written here as None. On data the figures are those of
      `calculateStats`. */
  function MetricStats(xs: seq<real>): (r: Option<Stats>)
    ensures r.None? <==> |xs| == 0
    ensures r.Some? ==> r.value == CalculateStats(xs)
  {
    if |xs| == 0 then None
    else Some(Stats(MinOf(xs), MaxOf(xs), Sum(xs) / (|xs| as real)))
  }

  datatype ReportStats = ReportStats(voltage: Option<Stats>, current: Option<Stats>, power: Option<Stats>)

  function ComputeStats(data: seq<DataPoint>): ReportStats {
    ReportStats(MetricStats(Voltages(data)), MetricStats(Currents(data)), MetricStats(Powers(data)))
  }

  /** `stats.x.max > limit`; `-Infinity > limit` is false, so no data, no anomaly. */
  predicate Exceeds(s: Option<Stats>, limit: real) {
    s.Some? && s.value.max > limit
  }

  const VoltageLimit: real := 30.0
  const CurrentLimit: real := 2.0
  const PowerLimit: real := 50.0

  /** The three messages; `formatNumber(x, d)` is `x.toFixed(d)`. */
  function VoltageMessage(max: real, formatNumber: (real, nat) -> string): string {
    "检测到高电压值: " + formatNumber(max, 2) + " V"
  }

  function CurrentMessage(max: real, formatNumber: (real, nat) -> string): string {
    "检测到高电流值: " + formatNumber(max, 3) + " A"
  }

  function PowerMessage(max: real, formatNumber: (real, nat) -> string): string {
    "检测到高功率值: " + formatNumber(max, 2) + " W"
  }

  function MessageIf(cond: bool, msg: string): seq<string> {
    if cond then [msg] else []
  }

  /** The anomaly list: one message per metric whose maximum is strictly above
      its limit, in the order voltage, current, power. */
  function Anomalies(s: ReportStats, formatNumber: (real, nat) -> string): seq<string> {
    MessageIf(Exceeds(s.voltage, VoltageLimit), VoltageMessage(if s.voltage.Some? then s.voltage.value.max else 0.0, formatNumber))
    + MessageIf(Exceeds(s.current, CurrentLimit), CurrentMessage(if s.current.Some? then s.current.value.max else 0.0, formatNumber))
    + MessageIf(Exceeds(s.power, PowerLimit), PowerMessage(if s.power.Some? then s.power.value.max else 0.0, formatNumber))
  }

  /** The checks as the report builds them, pushing onto a list. */
  method CheckAnomalies(s: ReportStats, formatNumber: (real, nat) -> string) returns (anomalies: seq<string>)
    ensures anomalies == Anomalies(s, formatNumber)
    ensures |anomalies| <= 3
  {
    anomalies := [];
    if s.voltage.Some? && s.voltage.value.max > 30.0 {
      anomalies := anomalies + [VoltageMessage(s.voltage.value.max, formatNumber)];
    }
    if s.current.Some? && s.current.value.max > 2.0 {
      anomalies := anomalies + [CurrentMessage(s.current.value.max, formatNumber)];
    }
    if s.power.Some? && s.power.value.max > 50.0 {
      anomalies := anomalies + [PowerMessage(s.power.value.max, formatNumber)];
    }
  }

  /** Each message is reported exactly when its metric's maximum is above the
      limit; the three messages can be told apart by their text. */
  lemma AnomalyIff(data: seq<DataPoint>, formatNumber: (real, nat) -> string)
    requires |data| > 0
    ensures var s := ComputeStats(data); var a := Anomalies(s, formatNumber);
      (VoltageMessage(s.voltage.value.max, formatNumber) in a <==> s.voltage.value.max > VoltageLimit)
      && (CurrentMessage(s.current.value.max, formatNumber) in a <==> s.current.value.max > CurrentLimit)
      && (PowerMessage(s.power.value.max, formatNumber) in a <==> s.power.value.max > PowerLimit)
  {
    var s := ComputeStats(data);
    var v, c, p := VoltageMessage(s.voltage.value.max, formatNumber),
      CurrentMessage(s.current.value.max, formatNumber), PowerMessage(s.power.value.max, formatNumber);
    assert v[5] == '压' && c[5] == '流' && p[4] == '功' && v[4] == '电' && c[4] == '电';
  }

  /** A maximum that merely reaches a limit is not an anomaly. */
  lemma AtLimitNoAnomaly(formatNumber: (real, nat) -> string)
    ensures Anomalies(ReportStats(Some(Stats(0.0, 30.0, 0.0)), Some(Stats(0.0, 2.0, 0.0)),
                                  Some(Stats(0.0, 50.0, 0.0))), formatNumber) == []
  {
  }

  /** With no data there are no maxima, hence no anomalies. */
  lemma NoDataNoAnomaly(formatNumber: (real, nat) -> string)
    ensures ComputeStats([]) == ReportStats(None, None, None)
    ensures Anomalies(ComputeStats([]), formatNumber) == []
  {
  }

  /** Missing or zero readings count as 0 in every figure. */
  lemma FalsyReadsAsZero(data: seq<DataPoint>, i: nat)
    requires i < |data|
    requires !data[i].voltage.Real?
    ensures Voltages(data)[i] == 0.0
    ensures ComputeStats(data).voltage.value.min <= 0.0 <= ComputeStats(data).voltage.value.max
  {
  }

  /** The HTML list of the quality section. */
  function AnomalyItems(anomalies: seq<string>): (html: string)
    ensures |anomalies| == 0 ==> html == "<li>未检测到异常数据</li>"
  {
    if |anomalies| > 0 then Text.Join(Items(anomalies), "") else "<li>未检测到异常数据</li>"
  }

  function Items(anomalies: seq<string>): (r: seq<string>)
    ensures |r| == |anomalies|
    ensures forall i :: 0 <= i < |anomalies| ==> r[i] == "<li>" + anomalies[i] + "</li>"
  {
    seq(|anomalies|, i requires 0 <= i < |anomalies| => "<li>" + anomalies[i] + "</li>")
  }

  const PageHeight: real := 295.0

  /** The number of A4 pages an image of height h takes: the first page, plus a
      page for every full page height that fits into h. */
  function PageCount(h: real): (n: nat)
    ensures n >= 1
    ensures h >= 0.0 ==> PageHeight * ((n - 1) as real) <= h < PageHeight * (n as real)
    ensures h < 0.0 ==> n == 1
  {
    if h < 0.0 then 1 else (h / 295.0).Floor + 1
  }

  /** The page loop: one `addImage` on the first page at position 0, then while
      `heightLeft >= 0` a new page with the image shifted up by one more page
      height. Returns the position of the image on every page. */
  method Paginate(imgHeight: real) returns (positions: seq<real>)
    ensures |positions| == PageCount(imgHeight)
    ensures forall k :: 0 <= k < |positions| ==> positions[k] == -PageHeight * (k as real)
  {
    var heightLeft := imgHeight;
    var position := 0.0;
    positions := [position];
    heightLeft := heightLeft - 295.0;
    while heightLeft >= 0.0
      invariant heightLeft == imgHeight - PageHeight * (|positions| as real)
      invariant |positions| >= 1
      invariant imgHeight < 0.0 ==> |positions| == 1
      invariant imgHeight >= 0.0 ==> PageHeight * ((|positions| - 1) as real) <= imgHeight
      invariant forall k :: 0 <= k < |positions| ==> positions[k] == -PageHeight * (k as real)
      decreases (heightLeft + 295.0).Floor
    {
      position := heightLeft - imgHeight;
      positions := positions + [position];
      heightLeft := heightLeft - 295.0;
    }
  }

  /** One page for anything shorter than a page; an exact multiple of the
      page height gets a trailing page. */
  lemma PageCountExamples()
    ensures PageCount(0.0) == 1 && PageCount(294.0) == 1
    ensures PageCount(295.0) == 2 && PageCount(590.0) == 3
  {
  }

  /** `${experiment_name}_报告_${new Date().toISOString().split('T')[0]}.pdf`. */
  function PdfFileName(experimentName: string, isoNow: string): string {
    experimentName + "_报告_" + Text.Split(isoNow, 'T')[0] + ".pdf"
  }

  /** With an ISO timestamp `date + "T" + time`, the name carries the date part. */
  lemma PdfFileNameDate(experimentName: string, date: string, time: string)
    requires 'T' !in date
    ensures PdfFileName(experimentName, date + "T" + time) == experimentName + "_报告_" + date + ".pdf"
  {
    Text.SplitAfterPiece(date, 'T', time);
  }

  /** The saved document: its file name and the image position on each page. */
  datatype PdfFile = PdfFile(name: string, positions: seq<real>)

  /** The browser document: the elements attached to its body. */
  class Document {
    var body: seq<string>

    constructor (body: seq<string>)
      ensures this.body == body
    {
      this.body := body;
    }

    method AppendChild(element: string)
      modifies this
      ensures body == old(body) + [element]
    {
      body := body + [element];
    }

    method RemoveLastChild()
      requires |body| > 0
      modifies this
      ensures body == old(body)[..|old(body)| - 1]
    {
      body := body[..|body| - 1];
    }
  }

  /** `generatePDFReport`: the container is attached while the image is being
      made and removed on both the success and the failure path; a failed
      rendering gives its error. */
  method GeneratePdfReport(doc: Document, experiment: Experiment, render: Result<real, string>, isoNow: string)
    returns (result: Result<PdfFile, string>)
    modifies doc
    ensures doc.body == old(doc.body)
    ensures render.Failure? ==> result == Failure(render.error)
    ensures render.Success? ==> (result.Success?
      && result.value.name == PdfFileName(experiment.experimentName, isoNow)
      && |result.value.positions| == PageCount(render.value)
      && forall k :: 0 <= k < |result.value.positions| ==> result.value.positions[k] == -PageHeight * (k as real))
  {
    doc.AppendChild("report-container");
    if render.Success? {
      var positions := Paginate(render.value);
      result := Success(PdfFile(PdfFileName(experiment.experimentName, isoNow), positions));
    } else {
      result := Failure(render.error);
    }
    doc.RemoveLastChild();
  }
}
