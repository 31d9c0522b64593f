/** app/dashboard/experiments/page.tsx: the search filter over the loaded
    experiments, the six-column CSV export of one experiment's data, the
    status captions and the administrator-only delete action. */
module Experiments {
  import opened Wrappers
  import opened Records
  import opened Text
  import UseAuth

  /** `field?.toLowerCase().includes(term.toLowerCase())`: a missing field is
      `undefined`, which never matches. */
  predicate FieldMatches(field: Option<string>, term: string) {
    field.Some? && Includes(Lower(field.value), Lower(term))
  }

  /** The filter's test on one experiment. */
  predicate Matches(e: Experiment, term: string) {
    Includes(Lower(e.experimentName), Lower(term))
    || FieldMatches(e.deviceType, term)
    || FieldMatches(e.operatorName, term)
  }

  /** `experiments.filter(...)`: the matching experiments, in list order. */
  function FilterExperiments(exps: seq<Experiment>, term: string): (r: seq<Experiment>)
    ensures |r| <= |exps|
    ensures forall i :: 0 <= i < |r| ==> Matches(r[i], term) && r[i] in exps
    ensures forall i :: 0 <= i < |exps| && Matches(exps[i], term) ==> exps[i] in r
  {
    if |exps| == 0 then []
    else
      var rest := FilterExperiments(exps[1..], term);
      assert forall i :: 1 <= i < |exps| ==> exps[i] == exps[1..][i - 1];
      if Matches(exps[0], term) then [exps[0]] + rest else rest
  }

  /** Filtering a list in two parts filters each part in place: the result
      keeps the order of the input. */
  lemma {:induction false} FilterConcat(a: seq<Experiment>, b: seq<Experiment>, term: string)
    ensures FilterExperiments(a + b, term) == FilterExperiments(a, term) + FilterExperiments(b, term)
  {
    if |a| > 0 {
      assert (a + b)[1..] == a[1..] + b;
      FilterConcat(a[1..], b, term);
    } else {
      assert a + b == b;
    }
  }

  /** An empty search keeps every experiment. */
  lemma {:induction false} EmptyTermKeepsAll(exps: seq<Experiment>)
    ensures FilterExperiments(exps, "") == exps
  {
    if |exps| > 0 {
      IncludesEmpty(Lower(exps[0].experimentName));
      EmptyTermKeepsAll(exps[1..]);
    }
  }

  /** Without a device type or operator, only the name can match. */
  lemma MissingFieldsNeverMatch(e: Experiment, term: string)
    requires e.deviceType.None? && e.operatorName.None?
    ensures Matches(e, term) <==> Includes(Lower(e.experimentName), Lower(term))
  {
  }

  /** The search ignores the case of ASCII letters in term and fields. */
  lemma {:induction false} LowerIdempotent(s: string)
    ensures Lower(Lower(s)) == Lower(s)
  {
  }

  lemma CaseInsensitive(e: Experiment, term: string)
    ensures Matches(e, Lower(term)) <==> Matches(e, term)
  {
    LowerIdempotent(term);
  }

  const ExportHeader: seq<string> := ["序号", "时间戳", "电压(V)", "电流(A)", "功率(W)", "阻值(Ω)"]

  /** One exported line: `[sequence_number, timestamp, voltage, current, power,
      resistance || '']`. */
  function ExportRow(d: DataPoint, show: real -> string): seq<string> {
    [Cell(d.sequenceNumber, show), d.timestamp, Cell(d.voltage, show), Cell(d.current, show),
     Cell(d.power, show), TruthyCell(d.resistance, show)]
  }

  function ExportRows(data: seq<DataPoint>, show: real -> string): (r: seq<seq<string>>)
    ensures |r| == |data| + 1 && r[0] == ExportHeader
    ensures forall i :: 0 <= i < |data| ==> r[i + 1] == ExportRow(data[i], show)
  {
    [ExportHeader] + seq(|data|, i requires 0 <= i < |data| => ExportRow(data[i], show))
  }

  /** `handleExport`'s CSV text, rows in the order of the (sequence-ordered) query. */
  function ExportCsv(data: seq<DataPoint>, show: real -> string): string {
    CsvText(ExportRows(data, show))
  }

  /** A row's cells hold no line break when the printed numbers and the
      timestamp hold none. */
  lemma RowHasNoNewline(d: DataPoint, show: real -> string)
    requires forall x :: '\n' !in show(x)
    requires '\n' !in d.timestamp
    ensures forall j :: 0 <= j < |ExportRow(d, show)| ==> '\n' !in ExportRow(d, show)[j]
  {
  }

  lemma HeaderHasNoNewline()
    ensures forall j :: 0 <= j < |ExportHeader| ==> '\n' !in ExportHeader[j]
  {
  }

  /** No escaping is done, so the text is one header line plus one line per
      row exactly when no cell holds a line break; those lines are the header
      and the rows joined with ','. */
  lemma ExportLines(data: seq<DataPoint>, show: real -> string)
    requires forall x :: '\n' !in show(x)
    requires forall i :: 0 <= i < |data| ==> '\n' !in data[i].timestamp
    ensures |Split(ExportCsv(data, show), '\n')| == |data| + 1
    ensures Split(ExportCsv(data, show), '\n')[0] == Join(ExportHeader, ",")
    ensures forall i :: 0 <= i < |data| ==>
      Split(ExportCsv(data, show), '\n')[i + 1] == Join(ExportRow(data[i], show), ",")
  {
    var rows := ExportRows(data, show);
    HeaderHasNoNewline();
    forall i | 1 <= i < |rows|
      ensures forall j :: 0 <= j < |rows[i]| ==> '\n' !in rows[i][j]
    {
      assert rows[i] == ExportRow(data[i - 1], show);
      RowHasNoNewline(data[i - 1], show);
    }
    CsvLines(rows);
  }

  /** An empty resistance cell for a missing or zero reading. */
  lemma ZeroResistanceIsBlank(d: DataPoint, show: real -> string)
    requires !d.resistance.Real? || d.resistance.r == 0.0
    ensures ExportRow(d, show)[5] == ""
  {
  }

  /** `${experiment_name}_${new Date().toISOString().split('T')[0]}.csv`. */
  function ExportFileName(experimentName: string, isoNow: string): string {
    experimentName + "_" + Split(isoNow, 'T')[0] + ".csv"
  }

  /** With an ISO timestamp `date + "T" + time`, the export is named after the
      experiment and the date part. */
  lemma ExportFileNameDate(experimentName: string, date: string, time: string)
    requires 'T' !in date
    ensures ExportFileName(experimentName, date + "T" + time) == experimentName + "_" + date + ".csv"
  {
    SplitAfterPiece(date, 'T', time);
  }

  /** `getStatusText`. */
  function StatusText(status: string): (t: string)
    ensures status == "active" ==> t == "进行中"
    ensures status == "completed" ==> t == "已完成"
    ensures status == "archived" ==> t == "已归档"
    ensures status !in {"active", "completed", "archived"} ==> t == status
  {
    if status == "active" then "进行中"
    else if status == "completed" then "已完成"
    else if status == "archived" then "已归档"
    else status
  }

  /** The three captions are distinct, so the status can be read back from them. */
  lemma StatusTextInjective(a: string, b: string)
    requires a in {"active", "completed", "archived"} && b in {"active", "completed", "archived"}
    ensures StatusText(a) == StatusText(b) <==> a == b
  {
    assert "进行中"[0] != "已完成"[0] && "已完成"[1] != "已归档"[1];
  }

  /** `userRole === 'admin'`: the page's own test for offering delete. */
  predicate OffersDelete(userRole: string) {
    userRole == "admin"
  }

  /** The page's string comparison grants delete to the same users as the
      role hook's `canDelete`. */
  lemma OffersDeleteIsCanDelete(userRole: string)
    ensures OffersDelete(userRole) <==> UseAuth.CanDelete(ParseRole(userRole))
  {
    UseAuth.Capabilities(ParseRole(userRole));
  }
}
