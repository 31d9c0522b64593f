/** app/dashboard/upload/page.tsx: `handleFileSelect` and `handleUpload`. The
    upload checks its two guards, creates one experiment, and then takes the
    selected files one at a time: each spreadsheet's rows are mapped to data
    points and inserted in batches of 100; whatever goes wrong with one file
    becomes that file's error entry and the loop goes on. The summary toast
    counts successful files and data points.

    Reading the workbook (FileReader, XLSX), the clock, JavaScript's date
    parser, `parseFloat` on text, `toISOString` and number printing are
    inputs; the database is a class whose replies are fixed in advance. */
module Upload {
  import opened Wrappers
  import opened Records
  import opened Text
  import opened JsDate
  import ExcelTemplate

  /** A cell value as `sheet_to_json` gives it: empty, a number or text. */
  datatype SheetValue = Blank | Num(x: real) | Str(s: string)

  /** JavaScript truthiness of a cell: empty, 0 and '' are falsy. */
  predicate Truthy(v: SheetValue) {
    match v
    case Blank => false
    case Num(x) => x != 0.0
    case Str(s) => s != ""
  }

  /** The columns of a sheet row the page reads: 序号, 时间戳, 电压 (V), 电流 (A). */
  datatype SheetRow = SheetRow(sequence: SheetValue, timestamp: SheetValue, voltage: SheetValue, current: SheetValue)

  /** A selected file: its name, and what `parseExcelFile` makes of it (the
      first sheet's rows, or the message it was rejected with). */
  datatype SheetFile = SheetFile(name: string, contents: Result<seq<SheetRow>, string>)

  /** The page's collaborators. `parseDate` is `new Date(text)`; `parseFloat`
      gives None for NaN; `iso` is `toISOString` of a valid time value;
      `nowIso` is `new Date().toISOString()`; `show` prints a count. */
  datatype Env = Env(
    parseDate: string -> Date,
    parseFloat: string -> Option<real>,
    iso: int -> string,
    nowIso: string,
    show: nat -> string)

  /** The message of the RangeError `toISOString` throws on an Invalid Date. */
  const InvalidTimeValue: string := "Invalid time value"

  /** The 时间戳 conversion. A falsy cell is now; a number is a spreadsheet
      serial, day fraction kept, whose out-of-range value makes `toISOString`
      throw; text goes to the date parser and falls back to now. */
  function Timestamp(v: SheetValue, env: Env): (r: Result<string, string>)
    ensures !Truthy(v) ==> r == Success(env.nowIso)
    ensures v.Num? && Truthy(v) ==> var d := TimeClip(ExcelTemplate.SerialToMs(v.x));
      (d.Invalid? ==> r == Failure(InvalidTimeValue)) && (d.Valid? ==> r == Success(env.iso(d.ms)))
    ensures v.Str? && Truthy(v) ==> var d := env.parseDate(v.s);
      (d.Invalid? ==> r == Success(env.nowIso)) && (d.Valid? ==> r == Success(env.iso(d.ms)))
    ensures r.Failure? ==> v.Num? && r.error == InvalidTimeValue
  {
    if !Truthy(v) then Success(env.nowIso)
    else match v
      case Num(x) =>
        var d := TimeClip((x - 25569.0) * 86400.0 * 1000.0);
        if d.Invalid? then Failure(InvalidTimeValue) else Success(env.iso(d.ms))
      case Str(s) =>
        var d := env.parseDate(s);
        if d.Invalid? then Success(env.nowIso) else Success(env.iso(d.ms))
  }

  /** The cell as the value `parseExcelDate` of lib/excel-template.ts is given. */
  function AsJsValue(v: SheetValue): ExcelTemplate.JsValue {
    match v
    case Blank => ExcelTemplate.OtherValue
    case Num(x) => ExcelTemplate.NumberValue(x)
    case Str(s) => ExcelTemplate.StringValue(s)
  }

  /** The page writes out the template module's `parseExcelDate` inline: on a
      truthy cell both give the same instant, and the page fails exactly
      where that instant is an Invalid Date. */
  lemma TimestampMatchesTemplate(v: SheetValue, env: Env, now: int)
    requires Truthy(v) && env.iso(now) == env.nowIso
    ensures var d := ExcelTemplate.ParseExcelDate(AsJsValue(v), now, env.parseDate);
      (d.Valid? ==> Timestamp(v, env) == Success(env.iso(d.ms)))
      && (d.Invalid? ==> Timestamp(v, env).Failure?)
  {
  }

  /** A falsy cell, 0 included, is not converted at all: it is the current
      time, where the template module would give 1899-12-30. */
  lemma ZeroSerialIsNow(env: Env)
    ensures Timestamp(Num(0.0), env) == Success(env.nowIso)
  {
  }

  /** `parseFloat(String(v || 0))`. */
  function Reading(v: SheetValue, parseFloat: string -> Option<real>): (m: Measure)
    ensures !Truthy(v) ==> m == Real(0.0)
    ensures v.Num? ==> m == Real(v.x)
    ensures m.NaN? <==> v.Str? && v.s != "" && parseFloat(v.s).None?
    ensures m.Real? && v.Str? && v.s != "" ==> parseFloat(v.s) == Some(m.r)
    ensures !m.Null?
  {
    if !Truthy(v) then Real(0.0)
    else match v
      case Num(x) => Real(x)
      case Str(s) => if parseFloat(s).Some? then Real(parseFloat(s).value) else NaN
  }

  /** The row handed to the insert; `power` is left to the database. */
  datatype NewDataPoint = NewDataPoint(
    experimentId: string,
    sequenceNumber: SheetValue,
    timestamp: string,
    voltage: Measure,
    current: Measure)

  /** `excelData.map((row, index) => ...)` for one row. */
  function MapRow(row: SheetRow, index: nat, experimentId: string, env: Env): (r: Result<NewDataPoint, string>)
    ensures r.Success? <==> Timestamp(row.timestamp, env).Success?
    ensures r.Failure? ==> r.error == InvalidTimeValue
    ensures r.Success? ==> r.value.timestamp == Timestamp(row.timestamp, env).value
                           && r.value.experimentId == experimentId
    ensures r.Success? && Truthy(row.sequence) ==> r.value.sequenceNumber == row.sequence
    ensures r.Success? && !Truthy(row.sequence) ==> r.value.sequenceNumber == Num((index + 1) as real)
    ensures r.Success? ==> r.value.voltage == Reading(row.voltage, env.parseFloat)
                           && r.value.current == Reading(row.current, env.parseFloat)
  {
    match Timestamp(row.timestamp, env)
    case Failure(e) => Failure(e)
    case Success(t) =>
      Success(NewDataPoint(experimentId,
        if Truthy(row.sequence) then row.sequence else Num((index + 1) as real),
        t, Reading(row.voltage, env.parseFloat), Reading(row.current, env.parseFloat)))
  }

  /** Every timestamp of the sheet can be written: no numeric serial
      outside the range of JavaScript dates. */
  predicate AllDatable(rows: seq<SheetRow>, env: Env) {
    forall i :: 0 <= i < |rows| ==> Timestamp(rows[i].timestamp, env).Success?
  }

  /** The whole map: one data point per row, in row order, or the RangeError
      of the first row that cannot be dated. */
  function MapRows(rows: seq<SheetRow>, experimentId: string, env: Env): (r: Result<seq<NewDataPoint>, string>)
    ensures r.Failure? ==> r.error == InvalidTimeValue
    ensures r.Success? ==> |r.value| == |rows|
  {
    if AllDatable(rows, env) then
      Success(seq(|rows|, i requires 0 <= i < |rows| && AllDatable(rows, env) => MapRow(rows[i], i, experimentId, env).value))
    else Failure(InvalidTimeValue)
  }

  /** The map succeeds exactly when every row can be dated, and then data
      point i is row i mapped with its own index. */
  lemma MapRowsMeaning(rows: seq<SheetRow>, experimentId: string, env: Env)
    ensures MapRows(rows, experimentId, env).Success? <==> AllDatable(rows, env)
    ensures var r := MapRows(rows, experimentId, env);
      r.Success? ==> forall i :: 0 <= i < |rows| ==> MapRow(rows[i], i, experimentId, env) == Success(r.value[i])
  {
  }

  /** No row is ever dropped or rejected on its own: text that does not parse
      and empty cells still give a row. */
  lemma TextTimestampsNeverReject(rows: seq<SheetRow>, experimentId: string, env: Env)
    requires forall i :: 0 <= i < |rows| ==> !rows[i].timestamp.Num?
    ensures MapRows(rows, experimentId, env).Success?
    ensures |MapRows(rows, experimentId, env).value| == |rows|
  {
  }

  const BatchSize: nat := 100

  function Min(a: int, b: int): int {
    if a <= b then a else b
  }

  /** `experimentData.slice(j, j + 100)` for j = 0, 100, 200, ... */
  function Batches<T>(rows: seq<T>): seq<seq<T>>
    decreases |rows|
  {
    if |rows| == 0 then []
    else
      var k := Min(BatchSize, |rows|);
      [rows[..k]] + Batches(rows[k..])
  }

  function Flatten<T>(bs: seq<seq<T>>): seq<T> {
    if |bs| == 0 then [] else bs[0] + Flatten(bs[1..])
  }

  /** The batches put back together are the rows. */
  lemma {:induction false} BatchesFlatten<T>(rows: seq<T>)
    ensures Flatten(Batches(rows)) == rows
    decreases |rows|
  {
    if |rows| > 0 {
      var k := Min(BatchSize, |rows|);
      BatchesFlatten(rows[k..]);
      assert Batches(rows)[1..] == Batches(rows[k..]);
      assert rows[..k] + rows[k..] == rows;
    }
  }

  /** ⌈M/100⌉ batches of 1 to 100 rows, all but the last of exactly 100. */
  lemma {:induction false} BatchesShape<T>(rows: seq<T>)
    ensures |Batches(rows)| == (|rows| + 99) / 100
    ensures forall i :: 0 <= i < |Batches(rows)| ==> 1 <= |Batches(rows)[i]| <= BatchSize
    ensures forall i :: 0 <= i < |Batches(rows)| - 1 ==> |Batches(rows)[i]| == BatchSize
    decreases |rows|
  {
    if |rows| > 0 {
      var k := Min(BatchSize, |rows|);
      var bs, rest := Batches(rows), Batches(rows[k..]);
      BatchesShape(rows[k..]);
      assert bs[1..] == rest;
      assert forall i :: 1 <= i < |bs| ==> bs[i] == rest[i - 1];
      if |rows| > 100 {
        assert |rows[k..]| == |rows| - 100;
      }
    }
  }

  /** The batch starting at j, then the batches after it. */
  lemma BatchesFrom<T>(rows: seq<T>, j: nat)
    requires j < |rows|
    ensures Batches(rows[j..]) == [rows[j..Min(j + BatchSize, |rows|)]] + Batches(rows[Min(j + BatchSize, |rows|)..])
  {
    var k := Min(BatchSize, |rows| - j);
    assert rows[j..][..k] == rows[j..Min(j + BatchSize, |rows|)];
    assert rows[j..][k..] == rows[Min(j + BatchSize, |rows|)..];
  }

  /** What a sequence of inserts wrote, how many calls it took in all, and the
      error that stopped it. */
  datatype BatchRun<T> = BatchRun(written: seq<T>, calls: nat, error: Option<string>)

  function Prepend<T>(done: seq<T>, run: BatchRun<T>): BatchRun<T> {
    run.(written := done + run.written)
  }

  /** Inserting the batches in order; `replies(n)` is the error of the n-th
      insert call of the session, if it fails. The first error ends it. */
  function InsertBatches<T>(bs: seq<seq<T>>, replies: nat -> Option<string>, call: nat): (r: BatchRun<T>)
    ensures r.calls >= call
  {
    if |bs| == 0 then BatchRun([], call, None)
    else if replies(call).Some? then BatchRun([], call + 1, replies(call))
    else Prepend(bs[0], InsertBatches(bs[1..], replies, call + 1))
  }

  /** The inserts stop at the first failing batch: every batch before it was
      written, in order, and nothing after it was sent; without a failure
      every batch was written, one call each. */
  lemma {:induction false} InsertBatchesOutcome<T>(bs: seq<seq<T>>, replies: nat -> Option<string>, call: nat)
    ensures InsertBatches(bs, replies, call).calls <= call + |bs|
    ensures var r := InsertBatches(bs, replies, call);
      r.error.None? ==> (r.calls == call + |bs| && r.written == Flatten(bs)
                         && forall n :: call <= n < r.calls ==> replies(n).None?)
    ensures var r := InsertBatches(bs, replies, call);
      r.error.Some? ==> (call < r.calls && r.error == replies(r.calls - 1)
                         && r.written == Flatten(bs[..r.calls - 1 - call])
                         && forall n :: call <= n < r.calls - 1 ==> replies(n).None?)
  {
    if |bs| > 0 {
      if replies(call).None? {
        InsertBatchesOutcome(bs[1..], replies, call + 1);
        var rest := InsertBatches(bs[1..], replies, call + 1);
        if rest.error.Some? {
          var k := rest.calls - 1 - (call + 1);
          assert bs[..k + 1][1..] == bs[1..][..k];
          assert bs[..k + 1][0] == bs[0];
        }
      } else {
        assert bs[..0] == [];
      }
    }
  }

  /** One selected file's entry in the results list. */
  datatype UploadResult = UploadResult(fileName: string, success: bool, message: string, dataCount: Option<nat>)

  /** `error.message || '处理失败'`. */
  function ErrorText(msg: string): (t: string)
    ensures t != ""
    ensures msg != "" ==> t == msg
  {
    if msg == "" then "处理失败" else msg
  }

  /** One file: its entry, the rows it got written, and where the call count
      stands afterwards. */
  datatype FileRun = FileRun(result: UploadResult, written: seq<NewDataPoint>, calls: nat)

  /** The rows of one file as data points, or the message the file is
      rejected with: `parseExcelFile`'s own, the thrown '文件为空或格式不正确'
      for a sheet without rows, or the RangeError of the conversion. */
  function FileData(file: SheetFile, experimentId: string, env: Env): (r: Result<seq<NewDataPoint>, string>)
  {
    match file.contents
    case Failure(msg) => Failure(msg)
    case Success(rows) =>
      if |rows| == 0 then Failure(EmptySheet) else MapRows(rows, experimentId, env)
  }

  const EmptySheet: string := "文件为空或格式不正确"

  /** The body of the per-file `try`: every error lands in the `catch`, which
      reports `error.message || '处理失败'`. */
  function UploadFileSpec(file: SheetFile, experimentId: string, env: Env,
                          replies: nat -> Option<string>, call: nat): (r: FileRun)
    ensures r.result.fileName == file.name && r.calls >= call
  {
    match FileData(file, experimentId, env)
    case Failure(msg) => FileRun(UploadResult(file.name, false, ErrorText(msg), None), [], call)
    case Success(data) =>
      var run := InsertBatches(Batches(data), replies, call);
      if run.error.Some? then FileRun(UploadResult(file.name, false, ErrorText(run.error.value), None), run.written, run.calls)
      else FileRun(UploadResult(file.name, true, "上传成功", Some(|data|)), run.written, run.calls)
  }

  /** How one file ends: a success reports every row of the sheet and has
      written all of them; a failure reports no count and a message; a sheet
      that cannot be read or holds no rows writes nothing and makes no call. */
  lemma UploadFileOutcome(file: SheetFile, experimentId: string, env: Env,
                          replies: nat -> Option<string>, call: nat)
    ensures var r := UploadFileSpec(file, experimentId, env, replies, call);
      r.result.success ==> (file.contents.Success?
        && r.result == UploadResult(file.name, true, "上传成功", Some(|file.contents.value|))
        && MapRows(file.contents.value, experimentId, env).Success?
        && r.written == MapRows(file.contents.value, experimentId, env).value)
    ensures var r := UploadFileSpec(file, experimentId, env, replies, call);
      !r.result.success ==> r.result.dataCount == None && r.result.message != ""
    ensures file.contents.Success? && |file.contents.value| > 0
            && MapRows(file.contents.value, experimentId, env).Success?
            && InsertBatches(Batches(MapRows(file.contents.value, experimentId, env).value), replies, call).error.Some?
            ==> UploadFileSpec(file, experimentId, env, replies, call).result
                == UploadResult(file.name, false,
                     ErrorText(InsertBatches(Batches(MapRows(file.contents.value, experimentId, env).value),
                                             replies, call).error.value), None)
    ensures file.contents.Success? && |file.contents.value| == 0 ==>
      UploadFileSpec(file, experimentId, env, replies, call)
      == FileRun(UploadResult(file.name, false, "文件为空或格式不正确", None), [], call)
    ensures file.contents.Failure? ==>
      UploadFileSpec(file, experimentId, env, replies, call)
      == FileRun(UploadResult(file.name, false, ErrorText(file.contents.error), None), [], call)
  {
    if file.contents.Success? && |file.contents.value| > 0 {
      var m := MapRows(file.contents.value, experimentId, env);
      if m.Success? {
        InsertBatchesOutcome(Batches(m.value), replies, call);
        BatchesFlatten(m.value);
      }
    }
  }

  /** A file whose insert fails part way keeps the batches written before the
      failure: its written rows are a prefix of its data, in whole batches. */
  lemma FailedFileKeepsEarlierBatches(file: SheetFile, experimentId: string, env: Env,
                                      replies: nat -> Option<string>, call: nat)
    requires file.contents.Success? && |file.contents.value| > 0
    requires MapRows(file.contents.value, experimentId, env).Success?
    ensures var data := MapRows(file.contents.value, experimentId, env).value;
      var r := UploadFileSpec(file, experimentId, env, replies, call);
      (r.written <= data && |r.written| % BatchSize == 0) || r.written == data
  {
    var data := MapRows(file.contents.value, experimentId, env).value;
    var bs := Batches(data);
    InsertBatchesOutcome(bs, replies, call);
    BatchesFlatten(data);
    var run := InsertBatches(bs, replies, call);
    assert FileData(file, experimentId, env) == Success(data);
    assert UploadFileSpec(file, experimentId, env, replies, call).written == run.written;
    if run.error.Some? {
      var k := run.calls - call - 1;
      BatchesShape(data);
      FlattenPrefix(bs, k);
    }
  }

  /** The first k batches, put together, are the first 100·k rows. */
  lemma {:induction false} FlattenPrefix<T>(bs: seq<seq<T>>, k: nat)
    requires k < |bs|
    requires forall i :: 0 <= i < |bs| - 1 ==> |bs[i]| == BatchSize
    ensures Flatten(bs[..k]) <= Flatten(bs)
    ensures |Flatten(bs[..k])| == k * BatchSize
  {
    if k > 0 {
      FlattenPrefix(bs[1..], k - 1);
      assert bs[..k][1..] == bs[1..][..k - 1];
      assert bs[1..][..k - 1] == bs[..k][1..];
      assert forall i :: 0 <= i < |bs[1..]| - 1 ==> bs[1..][i] == bs[i + 1];
    }
  }

  /** All files: the entries in file order, the rows written, and the calls. */
  datatype FilesRun = FilesRun(results: seq<UploadResult>, written: seq<NewDataPoint>, calls: nat)

  /** The per-file loop: each file is taken in turn from where the call count
      stands, whatever happened to the files before it. */
  function UploadFiles(files: seq<SheetFile>, experimentId: string, env: Env,
                       replies: nat -> Option<string>, call: nat): (r: FilesRun)
    ensures |r.results| == |files| && r.calls >= call
    ensures forall i :: 0 <= i < |files| ==> r.results[i].fileName == files[i].name
    decreases |files|
  {
    if |files| == 0 then FilesRun([], [], call)
    else
      var before := UploadFiles(files[..|files| - 1], experimentId, env, replies, call);
      var f := UploadFileSpec(files[|files| - 1], experimentId, env, replies, before.calls);
      FilesRun(before.results + [f.result], before.written + f.written, f.calls)
  }

  /** One more turn of the per-file loop. */
  lemma UploadFilesStep(files: seq<SheetFile>, experimentId: string, env: Env,
                        replies: nat -> Option<string>, call: nat, i: nat)
    requires i < |files|
    ensures var before := UploadFiles(files[..i], experimentId, env, replies, call);
      var f := UploadFileSpec(files[i], experimentId, env, replies, before.calls);
      UploadFiles(files[..i + 1], experimentId, env, replies, call)
      == FilesRun(before.results + [f.result], before.written + f.written, f.calls)
  {
    assert files[..i + 1][..i] == files[..i];
  }

  /** `results.filter(r => r.status === 'success').length`. */
  function SuccessCount(results: seq<UploadResult>): (n: nat)
    ensures n <= |results|
    ensures n == |results| <==> forall i :: 0 <= i < |results| ==> results[i].success
  {
    if |results| == 0 then 0
    else SuccessCount(results[..|results| - 1]) + (if results[|results| - 1].success then 1 else 0)
  }

  /** `results.reduce((sum, r) => sum + (r.dataCount || 0), 0)`. */
  function TotalDataPoints(results: seq<UploadResult>): (t: nat)
    ensures forall i :: 0 <= i < |results| ==> results[i].dataCount.GetOr(0) <= t
  {
    if |results| == 0 then 0
    else TotalDataPoints(results[..|results| - 1]) + results[|results| - 1].dataCount.GetOr(0)
  }

  /** The summary counts no more data points than were written: rows of a
      file that failed part way are in the table but not in the total. When
      every file succeeded the two agree. */
  lemma {:induction false} TotalAtMostWritten(files: seq<SheetFile>, experimentId: string, env: Env,
                                              replies: nat -> Option<string>, call: nat)
    ensures var r := UploadFiles(files, experimentId, env, replies, call);
      TotalDataPoints(r.results) <= |r.written|
      && (SuccessCount(r.results) == |files| ==> TotalDataPoints(r.results) == |r.written|)
    decreases |files|
  {
    if |files| > 0 {
      var init := files[..|files| - 1];
      TotalAtMostWritten(init, experimentId, env, replies, call);
      var r := UploadFiles(files, experimentId, env, replies, call);
      var before := UploadFiles(init, experimentId, env, replies, call);
      assert r.results[..|files| - 1] == before.results;
      var f := UploadFileSpec(files[|files| - 1], experimentId, env, replies, before.calls);
      UploadFileOutcome(files[|files| - 1], experimentId, env, replies, before.calls);
      if f.result.success {
        assert |f.written| == |files[|files| - 1].contents.value|;
      }
    }
  }

  /** The files' entries are produced one after another: file i's entry is
      what that file alone gives, starting from the calls the files before
      it made. */
  lemma {:induction false} FileEntry(files: seq<SheetFile>, experimentId: string, env: Env,
                                     replies: nat -> Option<string>, call: nat, i: nat)
    requires i < |files|
    ensures UploadFiles(files, experimentId, env, replies, call).results[i]
         == UploadFileSpec(files[i], experimentId, env, replies,
                           UploadFiles(files[..i], experimentId, env, replies, call).calls).result
    decreases |files|
  {
    var init := files[..|files| - 1];
    if i < |files| - 1 {
      FileEntry(init, experimentId, env, replies, call, i);
      assert init[..i] == files[..i];
      assert init[i] == files[i];
    } else {
      assert files[..i] == init;
    }
  }

  /** The summary toast's text. */
  function Summary(results: seq<UploadResult>, totalFiles: nat, show: nat -> string): string {
    "成功上传 " + show(SuccessCount(results)) + "/" + show(totalFiles) + " 个文件，共 "
    + show(TotalDataPoints(results)) + " 条数据"
  }

  /** When every file succeeded the toast reads n/n files and the number of
      rows the table gained. */
  lemma SummaryOfFullUpload(files: seq<SheetFile>, experimentId: string, env: Env,
                            replies: nat -> Option<string>, call: nat, show: nat -> string)
    requires forall i :: 0 <= i < |files| ==> UploadFiles(files, experimentId, env, replies, call).results[i].success
    ensures var r := UploadFiles(files, experimentId, env, replies, call);
      Summary(r.results, |files|, show)
      == "成功上传 " + show(|files|) + "/" + show(|files|) + " 个文件，共 " + show(|r.written|) + " 条数据"
  {
    TotalAtMostWritten(files, experimentId, env, replies, call);
  }

  /** `((i + 1) / totalFiles) * 100`, set as file i is started. */
  function Progress(i: nat, n: nat): real
    requires n > 0
  {
    ((i + 1) as real / n as real) * 100.0
  }

  /** The progress values shown for n files: rising, each above 0, the last
      one 100. */
  lemma ProgressRises(n: nat, i: nat, j: nat)
    requires i < j < n
    ensures 0.0 < Progress(i, n) < Progress(j, n) <= 100.0
    ensures Progress(n - 1, n) == 100.0
  {
    assert (i + 1) as real < (j + 1) as real;
    assert (n as real) / (n as real) == 1.0;
  }

  function ProgressSteps(n: nat): (r: seq<real>)
    requires n > 0
    ensures |r| == n && forall i :: 0 <= i < n ==> r[i] == Progress(i, n)
  {
    seq(n, i requires 0 <= i < n => Progress(i, n))
  }

  /** The experiment row `handleUpload` inserts. */
  datatype NewExperiment = NewExperiment(
    experimentName: string,
    operatorId: Option<string>,
    operatorName: string,
    deviceAddress: string,
    deviceType: string,
    status: string)

  function DeviceAddressOrDefault(s: string): (r: string)
    ensures s != "" ==> r == s
    ensures s == "" ==> r == "1"
  {
    if s == "" then "1" else s
  }

  function DeviceTypeOrDefault(s: string): (r: string)
    ensures s != "" ==> r == s
    ensures s == "" ==> r == "未知"
  {
    if s == "" then "未知" else s
  }

  /** The insert: the name as typed (untrimmed), the signed-in user's id and
      name (未知 when the name is missing or empty), the device fields with
      their defaults, status 'active'. */
  function NewExperimentFor(name: string, userId: Option<string>, userName: Option<string>,
                            deviceAddress: string, deviceType: string): (e: NewExperiment)
    ensures e.status == "active" && e.experimentName == name && e.operatorId == userId
    ensures e.operatorName == OrUnknown(userName)
    ensures e.deviceAddress == DeviceAddressOrDefault(deviceAddress)
    ensures e.deviceType == DeviceTypeOrDefault(deviceType)
  {
    NewExperiment(name, userId, OrUnknown(userName), DeviceAddressOrDefault(deviceAddress),
                  DeviceTypeOrDefault(deviceType), "active")
  }

  datatype Toast = Toast(title: string, description: string, destructive: bool)

  /** The experiments and experiment_data tables. `createReply` is what the
      experiment insert gives: the new row's id or an error; `insertReplies(n)`
      is the error of the n-th data insert, if it fails. */
  class Database {
    var experiments: seq<NewExperiment>
    var data: seq<NewDataPoint>
    var calls: nat
    const createReply: Result<string, string>
    const insertReplies: nat -> Option<string>

    constructor (createReply: Result<string, string>, insertReplies: nat -> Option<string>)
      ensures experiments == [] && data == [] && calls == 0
      ensures this.createReply == createReply && this.insertReplies == insertReplies
    {
      experiments := [];
      data := [];
      calls := 0;
      this.createReply := createReply;
      this.insertReplies := insertReplies;
    }

    /** `from('experiments').insert(e).select().single()`. */
    method CreateExperiment(e: NewExperiment) returns (r: Result<string, string>)
      modifies this`experiments
      ensures r == createReply
      ensures experiments == old(experiments) + (if r.Success? then [e] else [])
    {
      r := createReply;
      if r.Success? {
        experiments := experiments + [e];
      }
    }

    /** `from('experiment_data').insert(batch)`: all of the batch or nothing. */
    method InsertBatch(batch: seq<NewDataPoint>) returns (error: Option<string>)
      modifies this`data, this`calls
      ensures error == insertReplies(old(calls)) && calls == old(calls) + 1
      ensures data == old(data) + (if error.None? then batch else [])
    {
      error := insertReplies(calls);
      if error.None? {
        data := data + batch;
      }
      calls := calls + 1;
    }
  }

  /** The batch loop read directly on the rows: the batch at j is
      `slice(j, j + 100)`, and the loop goes on from where it ends. */
  function InsertFrom<T>(rows: seq<T>, j: nat, replies: nat -> Option<string>, call: nat): BatchRun<T>
    requires j <= |rows|
    decreases |rows| - j
  {
    if j == |rows| then BatchRun([], call, None)
    else if replies(call).Some? then BatchRun([], call + 1, replies(call))
    else Prepend(rows[j..Min(j + BatchSize, |rows|)], InsertFrom(rows, Min(j + BatchSize, |rows|), replies, call + 1))
  }

  /** The loop on the rows is the inserts of the batches. */
  lemma {:induction false} InsertFromBatches<T>(rows: seq<T>, j: nat, replies: nat -> Option<string>, call: nat)
    requires j <= |rows|
    ensures InsertFrom(rows, j, replies, call) == InsertBatches(Batches(rows[j..]), replies, call)
    decreases |rows| - j
  {
    if j < |rows| {
      BatchesFrom(rows, j);
      InsertFromBatches(rows, Min(j + BatchSize, |rows|), replies, call + 1);
    }
  }

  /** One turn of the loop on the rows. */
  lemma InsertFromStep<T>(rows: seq<T>, j: nat, replies: nat -> Option<string>, call: nat)
    requires j < |rows|
    ensures rows[..j] + rows[j..Min(j + BatchSize, |rows|)] == rows[..Min(j + BatchSize, |rows|)]
    ensures var next := Min(j + BatchSize, |rows|);
      replies(call).None? ==>
        Prepend(rows[..j], InsertFrom(rows, j, replies, call))
        == Prepend(rows[..next], InsertFrom(rows, next, replies, call + 1))
    ensures replies(call).Some? ==>
      Prepend(rows[..j], InsertFrom(rows, j, replies, call)) == BatchRun(rows[..j], call + 1, replies(call))
  {
    var next := Min(j + BatchSize, |rows|);
    if replies(call).None? {
      var rest := InsertFrom(rows, next, replies, call + 1);
      assert rows[..j] + (rows[j..next] + rest.written) == rows[..next] + rest.written;
    } else {
      assert rows[..j] + [] == rows[..j];
    }
  }

  lemma InsertFromEnd<T>(rows: seq<T>, replies: nat -> Option<string>, call: nat)
    ensures Prepend(rows[..|rows|], InsertFrom(rows, |rows|, replies, call)) == BatchRun(rows, call, None)
  {
    assert rows[..|rows|] + [] == rows;
  }

  /** The batch loop: `for (let j = 0; j < n; j += 100)`, throwing the first
      insert error. The index moves to where the batch ends, which is j + 100
      whenever the loop goes on. */
  method InsertRows(db: Database, rows: seq<NewDataPoint>) returns (error: Option<string>)
    modifies db`data, db`calls
    ensures var run := InsertFrom(rows, 0, db.insertReplies, old(db.calls));
      error == run.error && db.data == old(db.data) + run.written && db.calls == run.calls
  {
    ghost var replies := db.insertReplies;
    ghost var goal := InsertFrom(rows, 0, replies, db.calls);
    var j := 0;
    while j < |rows|
      invariant j <= |rows|
      invariant goal == Prepend(rows[..j], InsertFrom(rows, j, replies, db.calls))
      invariant db.data == old(db.data) + rows[..j]
      decreases |rows| - j
    {
      var next := Min(j + BatchSize, |rows|);
      InsertFromStep(rows, j, replies, db.calls);
      var e := db.InsertBatch(rows[j..next]);
      if e.Some? {
        return e;
      }
      j := next;
    }
    InsertFromEnd(rows, replies, db.calls);
    error := None;
  }

  /** One file, as the per-file `try`/`catch` handles it. */
  method UploadFile(db: Database, file: SheetFile, experimentId: string, env: Env) returns (result: UploadResult)
    modifies db`data, db`calls
    ensures var spec := UploadFileSpec(file, experimentId, env, db.insertReplies, old(db.calls));
      result == spec.result && db.data == old(db.data) + spec.written && db.calls == spec.calls
  {
    if file.contents.Failure? {
      return UploadResult(file.name, false, ErrorText(file.contents.error), None);
    }
    var rows := file.contents.value;
    if |rows| == 0 {
      return UploadResult(file.name, false, "文件为空或格式不正确", None);
    }
    var mapped := MapRows(rows, experimentId, env);
    if mapped.Failure? {
      return UploadResult(file.name, false, ErrorText(mapped.error), None);
    }
    var error := InsertRows(db, mapped.value);
    InsertFromBatches(mapped.value, 0, db.insertReplies, old(db.calls));
    assert mapped.value[0..] == mapped.value;
    if error.Some? {
      result := UploadResult(file.name, false, ErrorText(error.value), None);
    } else {
      result := UploadResult(file.name, true, "上传成功", Some(|mapped.value|));
    }
  }

  /** A file name without its extension: `name.replace(/\.[^/.]+$/, '')`. The
      pattern matches the last '.' when at least one character follows it and
      none of those is '/' (no later '.' by construction). */
  predicate ExtensionAt(name: string, k: nat) {
    k + 1 < |name| && name[k] == '.' && forall j :: k < j < |name| ==> name[j] != '.' && name[j] != '/'
  }

  /** Scanning back from j over characters other than '.' and '/'. */
  function ExtensionStart(name: string, j: nat): (r: Option<nat>)
    requires j <= |name|
    requires forall m :: j <= m < |name| ==> name[m] != '.' && name[m] != '/'
    ensures r.Some? ==> ExtensionAt(name, r.value)
    ensures r.None? ==> forall k :: 0 <= k < |name| ==> !ExtensionAt(name, k)
  {
    if j == 0 then None
    else if name[j - 1] == '.' then (if j < |name| then Some(j - 1) else None)
    else if name[j - 1] == '/' then None
    else ExtensionStart(name, j - 1)
  }

  function StripExtension(name: string): (r: string)
    ensures forall k :: 0 <= k < |name| && ExtensionAt(name, k) ==> r == name[..k]
    ensures (forall k :: 0 <= k < |name| ==> !ExtensionAt(name, k)) ==> r == name
  {
    var start := ExtensionStart(name, |name|);
    if start.Some? then
      ExtensionUnique(name, start.value);
      name[..start.value]
    else name
  }

  /** There is at most one place the pattern can start. */
  lemma ExtensionUnique(name: string, k: nat)
    requires ExtensionAt(name, k)
    ensures forall m :: 0 <= m < |name| && ExtensionAt(name, m) ==> m == k
  {
  }

  /** Only the last extension goes, a leading dot counts, a trailing dot does
      not. */
  lemma StripExtensionExamples()
    ensures StripExtension("data.xlsx") == "data"
    ensures StripExtension("run.2024.xls") == "run.2024"
    ensures StripExtension(".xlsx") == ""
    ensures StripExtension("notes.") == "notes."
  {
    assert ExtensionAt("data.xlsx", 4);
    assert ExtensionAt("run.2024.xls", 8);
    assert ExtensionAt(".xlsx", 0);
    assert forall k :: 0 <= k < 6 ==> !ExtensionAt("notes.", k);
  }

  /** The database holds what the per-file loop has written for `files`,
      starting from `data` and call `call`, and `results` are its entries. */
  ghost predicate UploadedSoFar(db: Database, files: seq<SheetFile>, experimentId: string, env: Env,
                                call: nat, data: seq<NewDataPoint>, results: seq<UploadResult>)
    reads db
  {
    var run := UploadFiles(files, experimentId, env, db.insertReplies, call);
    results == run.results && db.data == data + run.written && db.calls == run.calls
  }

  /** One turn of the per-file loop: file i is uploaded and its entry added. */
  method UploadNext(db: Database, files: seq<SheetFile>, i: nat, experimentId: string, env: Env,
                    ghost call: nat, ghost data: seq<NewDataPoint>, results: seq<UploadResult>)
    returns (results': seq<UploadResult>)
    requires i < |files|
    requires UploadedSoFar(db, files[..i], experimentId, env, call, data, results)
    modifies db`data, db`calls
    ensures UploadedSoFar(db, files[..i + 1], experimentId, env, call, data, results')
  {
    UploadFilesStep(files, experimentId, env, db.insertReplies, call, i);
    ghost var before := UploadFiles(files[..i], experimentId, env, db.insertReplies, call);
    ghost var f := UploadFileSpec(files[i], experimentId, env, db.insertReplies, before.calls);
    var r := UploadFile(db, files[i], experimentId, env);
    results' := results + [r];
    assert db.data == (data + before.written) + f.written == data + (before.written + f.written);
  }

  /** The upload form. `progressShown` is the list of values the progress bar
      was given during the last upload, in order. */
  class UploadPage {
    var isUploading: bool
    var uploadProgress: real
    var progressShown: seq<real>
    var selectedFiles: Option<seq<SheetFile>>
    var experimentName: string
    var deviceAddress: string
    var deviceType: string
    var uploadResults: seq<UploadResult>

    constructor ()
      ensures !isUploading && uploadProgress == 0.0 && progressShown == []
      ensures selectedFiles == None && experimentName == "" && deviceAddress == "" && deviceType == ""
      ensures uploadResults == []
    {
      isUploading := false;
      uploadProgress := 0.0;
      progressShown := [];
      selectedFiles := None;
      experimentName := "";
      deviceAddress := "";
      deviceType := "";
      uploadResults := [];
    }

    /** `handleFileSelect`: a non-empty selection is kept, and names the
        experiment after the first file when no name has been typed. */
    method HandleFileSelect(files: Option<seq<SheetFile>>)
      modifies this
      ensures files.Some? && |files.value| > 0 ==> (selectedFiles == files
        && experimentName == (if old(experimentName) == "" then StripExtension(files.value[0].name) else old(experimentName)))
      ensures !(files.Some? && |files.value| > 0) ==> selectedFiles == old(selectedFiles) && experimentName == old(experimentName)
      ensures isUploading == old(isUploading) && uploadProgress == old(uploadProgress)
      ensures progressShown == old(progressShown) && uploadResults == old(uploadResults)
      ensures deviceAddress == old(deviceAddress) && deviceType == old(deviceType)
    {
      if files.Some? && |files.value| > 0 {
        selectedFiles := files;
        if experimentName == "" {
          experimentName := StripExtension(files.value[0].name);
        }
      }
    }

    /** The guards let the upload through: files are selected and the name
        is not blank. `!experimentName.trim()` is stated as "all white space"
        (`Text.TrimEmptyIffBlank` is the equivalence). */
    predicate Ready()
      reads this
    {
      selectedFiles.Some? && |selectedFiles.value| > 0 && !IsBlank(experimentName)
    }

    /** One turn of the per-file loop: the progress bar moves to file i, then
        file i is uploaded. */
    method StartFile(db: Database, files: seq<SheetFile>, i: nat, experimentId: string, env: Env,
                     ghost call: nat, ghost data: seq<NewDataPoint>, results: seq<UploadResult>)
      returns (results': seq<UploadResult>)
      requires i < |files|
      requires UploadedSoFar(db, files[..i], experimentId, env, call, data, results)
      modifies this`uploadProgress, this`progressShown, db`data, db`calls
      ensures UploadedSoFar(db, files[..i + 1], experimentId, env, call, data, results')
      ensures uploadProgress == Progress(i, |files|)
      ensures progressShown == old(progressShown) + [Progress(i, |files|)]
    {
      uploadProgress := Progress(i, |files|);
      progressShown := progressShown + [uploadProgress];
      results' := UploadNext(db, files, i, experimentId, env, call, data, results);
    }

    /** The per-file loop; the progress bar is set as each file is started. */
    method UploadEach(db: Database, files: seq<SheetFile>, experimentId: string, env: Env)
      returns (results: seq<UploadResult>)
      requires |files| > 0
      modifies this`uploadProgress, this`progressShown, db`data, db`calls
      ensures var run := UploadFiles(files, experimentId, env, db.insertReplies, old(db.calls));
        results == run.results && db.data == old(db.data) + run.written && db.calls == run.calls
      ensures progressShown == old(progressShown) + ProgressSteps(|files|)
    {
      ghost var c0 := db.calls;
      ghost var d0 := db.data;
      ghost var p0 := progressShown;
      ghost var steps := ProgressSteps(|files|);
      results := [];
      var i := 0;
      while i < |files|
        invariant 0 <= i <= |files|
        invariant UploadedSoFar(db, files[..i], experimentId, env, c0, d0, results)
        invariant progressShown == p0 + steps[..i]
      {
        assert steps[..i + 1] == steps[..i] + [Progress(i, |files|)];
        results := StartFile(db, files, i, experimentId, env, c0, d0, results);
        i := i + 1;
      }
      assert files[..i] == files;
      assert steps[..i] == steps;
    }

    /** The experiment row was created: the files are uploaded under its id,
        the summary toast is shown and the form is cleared. */
    method UploadCreated(db: Database, files: seq<SheetFile>, experimentId: string, env: Env)
      returns (toast: Toast)
      requires |files| > 0
      modifies this`uploadProgress, this`progressShown, this`uploadResults, this`selectedFiles,
               this`experimentName, this`deviceAddress, this`deviceType, db`data, db`calls
      ensures var run := UploadFiles(files, experimentId, env, db.insertReplies, old(db.calls));
        uploadResults == run.results && db.data == old(db.data) + run.written && db.calls == run.calls
      ensures toast == Toast("上传完成", Summary(uploadResults, |files|, env.show), false)
      ensures progressShown == old(progressShown) + ProgressSteps(|files|)
      ensures selectedFiles == None && experimentName == "" && deviceAddress == "" && deviceType == ""
    {
      var results := UploadEach(db, files, experimentId, env);
      uploadResults := results;
      toast := Toast("上传完成", Summary(results, |files|, env.show), false);
      experimentName := "";
      deviceAddress := "";
      deviceType := "";
      selectedFiles := None;
    }

    /** `handleUpload`. `userId` and `userName` are the signed-in user and the
        name on their users row, when there is one. */
    method HandleUpload(db: Database, userId: Option<string>, userName: Option<string>, env: Env) returns (toast: Toast)
      modifies this, db
      ensures old(selectedFiles).None? || |old(selectedFiles).value| == 0 ==>
        toast == Toast("请选择文件", "请先选择要上传的Excel文件", true) && unchanged(this) && unchanged(db)
      ensures old(selectedFiles).Some? && |old(selectedFiles).value| > 0 && IsBlank(old(experimentName)) ==>
        toast == Toast("请输入实验名称", "实验名称不能为空", true) && unchanged(this) && unchanged(db)
      ensures old(Ready()) ==> !isUploading && uploadProgress == 0.0
      ensures old(Ready()) ==>
        db.experiments == old(db.experiments)
          + (if db.createReply.Success?
             then [NewExperimentFor(old(experimentName), userId, userName, old(deviceAddress), old(deviceType))]
             else [])
      ensures old(Ready()) && db.createReply.Failure? ==>
        toast == Toast("上传失败", if db.createReply.error == "" then "请检查文件格式并重试" else db.createReply.error, true)
        && uploadResults == [] && progressShown == [0.0]
        && db.data == old(db.data) && db.calls == old(db.calls)
        && selectedFiles == old(selectedFiles) && experimentName == old(experimentName)
        && deviceAddress == old(deviceAddress) && deviceType == old(deviceType)
      ensures old(Ready()) && db.createReply.Success? ==>
        var run := UploadFiles(old(selectedFiles).value, db.createReply.value, env, db.insertReplies, old(db.calls));
        uploadResults == run.results && db.data == old(db.data) + run.written && db.calls == run.calls
      ensures old(Ready()) && db.createReply.Success? ==>
        toast == Toast("上传完成", Summary(uploadResults, |old(selectedFiles).value|, env.show), false)
        && progressShown == [0.0] + ProgressSteps(|old(selectedFiles).value|)
        && selectedFiles == None && experimentName == "" && deviceAddress == "" && deviceType == ""
    {
      if selectedFiles.None? || |selectedFiles.value| == 0 {
        return Toast("请选择文件", "请先选择要上传的Excel文件", true);
      }
      if IsBlank(experimentName) {
        return Toast("请输入实验名称", "实验名称不能为空", true);
      }
      toast := Submit(db, userId, userName, env);
    }

    /** What `handleUpload` does once both guards have let it through. */
    method Submit(db: Database, userId: Option<string>, userName: Option<string>, env: Env) returns (toast: Toast)
      requires Ready()
      modifies this, db
      ensures !isUploading && uploadProgress == 0.0
      ensures db.experiments == old(db.experiments)
        + (if db.createReply.Success?
           then [NewExperimentFor(old(experimentName), userId, userName, old(deviceAddress), old(deviceType))]
           else [])
      ensures db.createReply.Failure? ==>
        toast == Toast("上传失败", if db.createReply.error == "" then "请检查文件格式并重试" else db.createReply.error, true)
        && uploadResults == [] && progressShown == [0.0]
        && db.data == old(db.data) && db.calls == old(db.calls)
        && selectedFiles == old(selectedFiles) && experimentName == old(experimentName)
        && deviceAddress == old(deviceAddress) && deviceType == old(deviceType)
      ensures db.createReply.Success? ==>
        var run := UploadFiles(old(selectedFiles).value, db.createReply.value, env, db.insertReplies, old(db.calls));
        uploadResults == run.results && db.data == old(db.data) + run.written && db.calls == run.calls
      ensures db.createReply.Success? ==>
        toast == Toast("上传完成", Summary(uploadResults, |old(selectedFiles).value|, env.show), false)
        && progressShown == [0.0] + ProgressSteps(|old(selectedFiles).value|)
        && selectedFiles == None && experimentName == "" && deviceAddress == "" && deviceType == ""
    {
      var files := selectedFiles.value;
      isUploading := true;
      uploadProgress := 0.0;
      progressShown := [0.0];
      uploadResults := [];
      var created := db.CreateExperiment(NewExperimentFor(experimentName, userId, userName, deviceAddress, deviceType));
      if created.Failure? {
        toast := Toast("上传失败", if created.error == "" then "请检查文件格式并重试" else created.error, true);
      } else {
        toast := UploadCreated(db, files, created.value, env);
      }
      isUploading := false;
      uploadProgress := 0.0;
    }
  }
}
