/** app/dashboard/reports/page.tsx: `handleGenerateReport`. After the
    selection and lookup guards the experiment's data is fetched; the 'pdf'
    type hands it to the PDF generator, every other type writes a CSV report
    with an eight-line header block, a byte-order mark in front. */
module Reports {
  import opened Wrappers
  import opened Records
  import opened Text

  /** What the toast and the download end up being. */
  datatype ReportOutcome =
    | NothingSelected
    | Failed(description: string)
    | PdfRequested(experiment: Experiment, data: seq<DataPoint>)
    | CsvDownload(fileName: string, content: string)

  /** The collaborators: `formatDate`, `Number.prototype.toString`, and the UTC
      ISO string of the current time. */
  datatype Env = Env(formatDate: string -> string, show: real -> string, isoNow: string)

  /** `error.message || '请稍后重试'`. */
  function FailureText(message: string): (t: string)
    ensures message != "" ==> t == message
    ensures message == "" ==> t == "请稍后重试"
  {
    if message == "" then "请稍后重试" else message
  }

  const DataHeader: seq<string> := ["序号", "时间戳", "电压(V)", "电流(A)", "功率(W)", "阻值(Ω)", "温度(℃)"]

  /** The eight lines above the data header. */
  function HeaderBlock(e: Experiment, env: Env): (r: seq<seq<string>>)
    ensures |r| == 8
  {
    [["实验报告"], [""],
     ["实验名称:", e.experimentName],
     ["操作员:", OrUnknown(e.operatorName)],
     ["设备类型:", OrUnknown(e.deviceType)],
     ["设备地址:", OrUnknown(e.deviceAddress)],
     ["创建时间:", env.formatDate(e.createdAt)],
     [""]]
  }

  /** One data line; zero or missing resistance and temperature print as nothing. */
  function ReportRow(d: DataPoint, show: real -> string): seq<string> {
    [Cell(d.sequenceNumber, show), d.timestamp, Cell(d.voltage, show), Cell(d.current, show),
     Cell(d.power, show), TruthyCell(d.resistance, show), TruthyCell(d.temperature, show)]
  }

  function ReportRows(e: Experiment, data: seq<DataPoint>, env: Env): (r: seq<seq<string>>)
    ensures |r| == 9 + |data|
    ensures r[..8] == HeaderBlock(e, env) && r[8] == DataHeader
    ensures forall i :: 0 <= i < |data| ==> r[9 + i] == ReportRow(data[i], env.show)
  {
    HeaderBlock(e, env) + [DataHeader] + seq(|data|, i requires 0 <= i < |data| => ReportRow(data[i], env.show))
  }

  /** The downloaded text: the byte-order mark, then the CSV. */
  function ReportCsv(e: Experiment, data: seq<DataPoint>, env: Env): (content: string)
    ensures |content| >= 1 && content[0] == '\U{FEFF}'
    ensures content[1..] == CsvText(ReportRows(e, data, env))
  {
    ['\U{FEFF}'] + CsvText(ReportRows(e, data, env))
  }

  function ReportFileName(e: Experiment, isoNow: string): string {
    e.experimentName + "_报告_" + Split(isoNow, 'T')[0] + ".csv"
  }

  /** With an ISO timestamp `date + "T" + time`, the CSV report is named
      after the experiment and the date part. */
  lemma ReportFileNameDate(e: Experiment, date: string, time: string)
    requires 'T' !in date
    ensures ReportFileName(e, date + "T" + time) == e.experimentName + "_报告_" + date + ".csv"
  {
    SplitAfterPiece(date, 'T', time);
  }

  /** `handleGenerateReport`. `fetch` is the data query: rows (possibly `null`)
      or an error message; `pdfError` is the failure of the PDF generator, if
      it failed. */
  function GenerateReport(selected: string, experiments: seq<Experiment>, reportType: string,
                          fetch: Result<Option<seq<DataPoint>>, string>, pdfError: Option<string>,
                          env: Env): (r: ReportOutcome)
    ensures selected == "" ==> r == NothingSelected
    ensures selected != "" && FindById(experiments, selected, ExperimentId).None? ==> r == Failed("实验不存在")
    ensures fetch.Failure? && selected != "" && FindById(experiments, selected, ExperimentId).Some?
            ==> r == Failed(FailureText(fetch.error))
    ensures selected != "" && FindById(experiments, selected, ExperimentId).Some? && fetch.Success?
            ==> var e := experiments[FindById(experiments, selected, ExperimentId).value];
                var data := fetch.value.GetOr([]);
                && (reportType != "pdf" ==> r == CsvDownload(ReportFileName(e, env.isoNow), ReportCsv(e, data, env)))
                && (reportType == "pdf" && pdfError.None? ==> r == PdfRequested(e, data))
                && (reportType == "pdf" && pdfError.Some? ==> r == Failed(FailureText(pdfError.value)))
    ensures r.PdfRequested? ==> reportType == "pdf" && r.experiment.id == selected && r.experiment in experiments
    ensures r.CsvDownload? ==> reportType != "pdf" && fetch.Success?
  {
    if selected == "" then NothingSelected
    else
      var found := FindById(experiments, selected, ExperimentId);
      if found.None? then Failed("实验不存在")
      else
        var experiment := experiments[found.value];
        match fetch
        case Failure(msg) => Failed(FailureText(msg))
        case Success(rows) =>
          var data := rows.GetOr([]);
          if reportType == "pdf" then
            if pdfError.Some? then Failed(FailureText(pdfError.value))
            else PdfRequested(experiment, data)
          else
            CsvDownload(ReportFileName(experiment, env.isoNow), ReportCsv(experiment, data, env))
  }

  /** The premises under which no cell of the report holds a line break. */
  ghost predicate PrintsOnOneLine(e: Experiment, data: seq<DataPoint>, env: Env) {
    (forall x :: '\n' !in env.show(x))
    && (forall x :: '\n' !in env.formatDate(x))
    && (forall i :: 0 <= i < |data| ==> '\n' !in data[i].timestamp)
    && '\n' !in e.experimentName
    && (forall s :: s in [e.operatorName, e.deviceType, e.deviceAddress] && s.Some? ==> '\n' !in s.value)
  }

  lemma ReportRowsOnOneLine(e: Experiment, data: seq<DataPoint>, env: Env)
    requires PrintsOnOneLine(e, data, env)
    ensures NoNewlineCells(ReportRows(e, data, env))
  {
    var rows := ReportRows(e, data, env);
    HeaderBlockHasNoNewline(e, env);
    forall i | 0 <= i < |rows|
      ensures forall j :: 0 <= j < |rows[i]| ==> '\n' !in rows[i][j]
    {
      if i < 8 {
        assert rows[i] == HeaderBlock(e, env)[i];
      } else if i > 8 {
        assert rows[i] == ReportRow(data[i - 9], env.show);
      }
    }
  }

  /** The content's lines: 9 + n of them when no cell holds a line break, the
      experiment's name on the third, the data header on the ninth and data
      row i on line 10 + i. */
  lemma ReportLines(e: Experiment, data: seq<DataPoint>, env: Env)
    requires PrintsOnOneLine(e, data, env)
    ensures var lines := Split(ReportCsv(e, data, env)[1..], '\n');
      |lines| == 9 + |data|
      && lines[2] == "实验名称:," + e.experimentName
      && lines[8] == Join(DataHeader, ",")
      && forall i :: 0 <= i < |data| ==> lines[9 + i] == Join(ReportRow(data[i], env.show), ",")
  {
    var rows := ReportRows(e, data, env);
    ReportRowsOnOneLine(e, data, env);
    CsvLines(rows);
    var lines := Split(ReportCsv(e, data, env)[1..], '\n');
    assert lines == JoinEach(rows, ",");
    assert rows[2] == HeaderBlock(e, env)[2];
    NameLine(e, env);
  }

  lemma NameLine(e: Experiment, env: Env)
    ensures Join(HeaderBlock(e, env)[2], ",") == "实验名称:," + e.experimentName
  {
    var row := HeaderBlock(e, env)[2];
    assert row == ["实验名称:", e.experimentName];
    assert Join(row, ",") == row[0] + "," + Join(row[1..], ",");
    assert row[1..] == [e.experimentName];
    assert "实验名称:" + "," == "实验名称:,";
  }

  lemma HeaderBlockHasNoNewline(e: Experiment, env: Env)
    requires forall x :: '\n' !in env.formatDate(x)
    requires '\n' !in e.experimentName
    requires forall s :: s in [e.operatorName, e.deviceType, e.deviceAddress] && s.Some? ==> '\n' !in s.value
    ensures forall i, j :: 0 <= i < 8 && 0 <= j < |HeaderBlock(e, env)[i]| ==> '\n' !in HeaderBlock(e, env)[i][j]
  {
    var h := HeaderBlock(e, env);
    assert '\n' !in OrUnknown(e.operatorName) && '\n' !in OrUnknown(e.deviceType) && '\n' !in OrUnknown(e.deviceAddress);
  }

  /** The three optional facts print as 未知 when missing or empty. */
  lemma UnknownFields(e: Experiment, env: Env)
    ensures e.operatorName.None? || e.operatorName == Some("") ==> HeaderBlock(e, env)[3] == ["操作员:", "未知"]
    ensures e.deviceType.None? || e.deviceType == Some("") ==> HeaderBlock(e, env)[4] == ["设备类型:", "未知"]
    ensures e.deviceAddress.None? || e.deviceAddress == Some("") ==> HeaderBlock(e, env)[5] == ["设备地址:", "未知"]
  {
  }
}
