# Photovoltaic shutdown-device dashboard: a Dafny model of its decision logic

The dashboard keeps experiments run on photovoltaic shutdown devices. Each
experiment has a series of measurements: voltage, current, power, resistance
and temperature. There are three kinds of user, admin, researcher and viewer.

Most of the application is database and browser I/O. This project models
the parts that decide something:

- **Spreadsheet import.** The upload page maps each row to a data point,
  inserts the points in batches of 100 and records one result per file,
  then writes a summary.
- **Statistics.** `calculateStats`, the PDF report's statistics, its
  fixed-threshold anomaly list and its page loop, and the six-bucket power
  histogram.
- **Date conversion.** The two spreadsheet-date conversions.
- **Access decisions.** The role ranking behind `hasRole`, the `AuthGuard`,
  the route middleware and the administrator API's status chain.
- **List updates and text output.** Resolving an alert, changing a user's
  role, the experiment search, the two CSV writers and the migration
  script's statement splitter.

There is one module per source file:

| module | source file |
|---|---|
| `Upload` | `app/dashboard/upload/page.tsx` |
| `Utils` | `lib/utils.ts` |
| `ExcelTemplate` | `lib/excel-template.ts` |
| `PowerDistribution` | `components/charts/power-distribution.tsx` |
| `ReportGenerator` | `lib/report-generator.ts` |
| `UseAuth` | `hooks/use-auth.ts` |
| `AuthGuard` | `components/auth/auth-guard.tsx` |
| `Middleware` | `middleware.ts` |
| `AdminUsersRoute` | `app/api/admin/users/route.ts` |
| `Experiments` | `app/dashboard/experiments/page.tsx` |
| `Reports` | `app/dashboard/reports/page.tsx` |
| `AlertMonitor` | `components/alerts/alert-monitor.tsx` |
| `UsersPage` | `app/dashboard/users/page.tsx` |
| `InitDb` | `scripts/init-db.js` |

Four modules are shared:

- `Records`: the record shapes of `types/` and JavaScript's `x || 0` and
  `x || '未知'` conventions.
- `Text`: `trim`, `split`, `join`, `includes` and `toLowerCase` on `seq<char>`.
- `JsDate`: a `Date` is an integer millisecond count or the Invalid Date;
  `new Date(x)` applies TimeClip.
- `Wrappers`: `Option` and `Result`.

Measurements are `real`. Compared timestamps are integer milliseconds, and
the database's text timestamps stay strings.

Whatever the code obtains from outside is an input of the model:

- database replies: a success, an error message, or a thrown exception;
- the clock;
- `parseFloat` and JavaScript's date-string parser;
- `toISOString`, number printing (`toString`, `toFixed`) and `formatDate`;
- the rendering of the PDF image.

State that the source changes in place is modelled with classes:

- the upload form and the database it writes to (`Upload.UploadPage`,
  `Upload.Database`);
- the users page and its table (`UsersPage.Page`, `UsersPage.UsersTable`);
- the document body the PDF container is attached to
  (`ReportGenerator.Document`).

The loops of the source are methods, each proved against a specification
function:

- the per-file loop and the batch loop of the upload;
- the histogram's `forEach`;
- the PDF page loop;
- the migration loop.

The three anomaly pushes of the report generator are a method too, proved
equal to the function `Anomalies`.

Two behaviours of the upload code are easy to miss:

- **Out-of-range serial timestamps.** The upload page passes a numeric
  timestamp through `new Date(...)` and then `toISOString()`. A serial
  outside the range of JavaScript dates therefore throws a RangeError, and
  that whole file gets an error entry. So a row can cause its file to be
  rejected (`Upload.Timestamp`, `Upload.MapRows`).
- **Falsy timestamp cells.** The upload page does not call the template
  module's `parseExcelDate`; it writes the same branches out inline. A
  falsy cell, serial 0 among them, is read as the current time
  (`Upload.TimestampMatchesTemplate`, `Upload.ZeroSerialIsNow`).

## Model

| member | source | states |
|---|---|---|
| Upload.UploadPage.HandleFileSelect | app/dashboard/upload/page.tsx:35-44 | A non-empty selection is kept. It names the experiment after the first file without its extension, but only if no name was typed. An empty selection changes nothing. |
| Upload.StripExtension | app/dashboard/upload/page.tsx:41 | Removes the one '.'-extension the pattern `\.[^/.]+$` can match: the last dot followed by at least one character and no '/'. A name with no such dot is kept whole. |
| Upload.StripExtensionExamples | app/dashboard/upload/page.tsx:41 | Only the last extension is removed. A leading dot counts ('.xlsx' gives ''); a trailing dot does not. |
| Upload.UploadPage.HandleUpload | app/dashboard/upload/page.tsx:69-222 | With no files, or a name that is all white space, it shows the matching toast and leaves page and database untouched. Otherwise it does what `Submit` states. |
| Upload.UploadPage.Submit | app/dashboard/upload/page.tsx:88-221 | The experiment row is appended exactly when its insert succeeds. If that insert fails, the failure toast carries its message, no data is written and the form is kept. If it succeeds, the results, rows written and insert calls are those of `UploadFiles`, all files are processed, the summary toast is shown and the form is cleared. Either way it ends not uploading, with progress 0. |
| Upload.UploadPage.UploadEach | app/dashboard/upload/page.tsx:116-190 | The per-file loop. Its results and the database's new rows and call count are exactly `UploadFiles` of the selection. The progress values shown are (i+1)/n·100 for each file in turn. |
| Upload.UploadPage.StartFile | app/dashboard/upload/page.tsx:120-190 | One turn of the loop: the progress bar shows (i+1)/n·100, then file i is uploaded and the database stays in step with `UploadFiles` of one more file. |
| Upload.UploadPage.UploadCreated | app/dashboard/upload/page.tsx:116-207 | After a successful experiment insert: the results, rows and calls are those of `UploadFiles`, the toast is the summary of those results, and name, address, type and selection are cleared. |
| Upload.UploadNext | app/dashboard/upload/page.tsx:120-190 | One turn of the per-file loop: file i's entry is added, and the database stays in step with `UploadFiles` of one more file. |
| Upload.NewExperimentFor | app/dashboard/upload/page.tsx:101-110 | The experiment row: the name as typed, the user's id, the user's name or 未知, device address default '1', device type default 未知, status 'active'. |
| Upload.Timestamp | app/dashboard/upload/page.tsx:141-154 | A falsy cell is the current time. Text goes to the date parser and falls back to the current time. A number converts to epoch milliseconds (serial − 25569)·86400000 with the day fraction kept, and fails with 'Invalid time value' exactly when that instant is beyond the range of dates. Only numbers ever fail. |
| Upload.TimestampMatchesTemplate | app/dashboard/upload/page.tsx:141-154 | On truthy cells the inline code and lib/excel-template.ts `parseExcelDate` give the same instant. The page fails exactly where that instant is an Invalid Date. |
| Upload.ZeroSerialIsNow | app/dashboard/upload/page.tsx:141 | Serial 0 is falsy, so it reads as the current time, not as 1899-12-30. |
| Upload.Reading | app/dashboard/upload/page.tsx:160-161 | Missing or falsy cells read as 0 and numbers as themselves. Text goes through `parseFloat` and is NaN exactly when that does not parse. The result is never null. |
| Upload.MapRow | app/dashboard/upload/page.tsx:138-164 | One row. It fails exactly when its timestamp does, and then with the RangeError. Otherwise it carries the experiment id and the converted timestamp. The sequence number is the 序号 cell when truthy and the 1-based row index otherwise. Voltage and current are the readings. |
| Upload.MapRows | app/dashboard/upload/page.tsx:138-164 | The whole map fails only with the RangeError; on success it gives one data point per row. |
| Upload.MapRowsMeaning | app/dashboard/upload/page.tsx:138-164 | The map succeeds exactly when every row can be dated, and data point i is row i mapped with index i. |
| Upload.TextTimestampsNeverReject | app/dashboard/upload/page.tsx:141-154 | Sheets without numeric timestamps are never rejected: every row gives a data point. |
| Upload.BatchesFlatten | app/dashboard/upload/page.tsx:167-169 | The batches `slice(j, j + 100)`, concatenated in order, are the rows. |
| Upload.BatchesShape | app/dashboard/upload/page.tsx:167-169 | M rows give ⌈M/100⌉ batches. Each holds 1 to 100 rows, and all but the last hold exactly 100. |
| Upload.InsertBatchesOutcome | app/dashboard/upload/page.tsx:168-175 | Inserts stop at the first failing batch. Everything before it was written in order, nothing after it was sent, and its error is the one reported. Without a failure every batch is written, one call each. |
| Upload.InsertFromBatches | app/dashboard/upload/page.tsx:168-175 | The loop that steps the index over the rows makes exactly the calls of inserting `Batches` of those rows. |
| Upload.InsertRows | app/dashboard/upload/page.tsx:168-175 | The batch loop method. Its error, the rows it adds to the table and its call count are those of the row-indexed specification. |
| Upload.Database.CreateExperiment | app/dashboard/upload/page.tsx:101-114 | The insert reply is the table's reply. The row is appended exactly when the reply is a success. |
| Upload.Database.InsertBatch | app/dashboard/upload/page.tsx:170-174 | One call. The batch is appended as a whole or not at all, as the reply for this call number says. |
| Upload.ErrorText | app/dashboard/upload/page.tsx:187 | `error.message \|\| '处理失败'`: a file's error entry never has an empty message. |
| Upload.UploadFileSpec | app/dashboard/upload/page.tsx:124-189 | The entry of one file carries that file's name. The call count never goes down. |
| Upload.UploadFileOutcome | app/dashboard/upload/page.tsx:126-189 | A success reports '上传成功' and the sheet's row count, and has written every mapped row. A failure reports no count and a non-empty message. An insert failure's entry carries `error.message \|\| '处理失败'` of the failing batch's error. An unreadable sheet, or one without rows ('文件为空或格式不正确'), writes nothing and makes no call. |
| Upload.UploadFile | app/dashboard/upload/page.tsx:124-189 | The per-file method. Its entry and its effect on the table are those of `UploadFileSpec`. |
| Upload.FailedFileKeepsEarlierBatches | app/dashboard/upload/page.tsx:168-189 | A file whose insert fails part way keeps the batches written before the failure: a prefix of its data in whole batches of 100. |
| Upload.UploadFiles | app/dashboard/upload/page.tsx:116-190 | Exactly one entry per selected file, in file order, each carrying that file's name. A failing file does not stop the files after it. |
| Upload.UploadFilesStep | app/dashboard/upload/page.tsx:120-190 | One more file extends the results, the rows written and the call count by what that file alone gives. |
| Upload.FileEntry | app/dashboard/upload/page.tsx:120-190 | File i's entry is what that file alone gives, from the call count the files before it left. |
| Upload.TotalAtMostWritten | app/dashboard/upload/page.tsx:195-196 | The summary's data-point total (missing counts as 0) never exceeds the rows written. It equals them when every file succeeded. Rows of a file that failed part way are in the table but not in the total. |
| Upload.SuccessCount | app/dashboard/upload/page.tsx:195 | The number of successful entries: at most the number of entries, and equal to it exactly when every entry succeeded. |
| Upload.TotalDataPoints | app/dashboard/upload/page.tsx:196 | The sum of the entries' counts, missing counts as 0: no single entry's count exceeds it. |
| Upload.SummaryOfFullUpload | app/dashboard/upload/page.tsx:195-201 | When every file succeeded the summary toast reads n/n files and, as its total, the number of rows the table gained. |
| Upload.ProgressRises | app/dashboard/upload/page.tsx:122 | The progress values rise strictly, are all above 0, and the last one is 100. |
| Upload.ProgressSteps | app/dashboard/upload/page.tsx:120-122 | One progress value per file, file i's being (i+1)/n·100. |
| Utils.MinOf | lib/utils.ts:26 | `Math.min(...data)`: an element of the list and at most every element. |
| Utils.MaxOf | lib/utils.ts:27 | `Math.max(...data)`: an element of the list and at least every element. |
| Utils.CalculateStats | lib/utils.ts:23-31 | No data gives 0, 0, 0. Otherwise min and max are elements bounding every value, avg·n is the sum, and min ≤ avg ≤ max. |
| Utils.SumBetween | lib/utils.ts:28 | A sum of n values in [lo, hi] lies in [n·lo, n·hi]. |
| Utils.AverageBetween | lib/utils.ts:28 | The mean of values in [lo, hi] lies in [lo, hi]. |
| Utils.SumConcat | lib/utils.ts:28 | The reduce over two concatenated lists is the sum of the two reduces. |
| Utils.SumPermutation | lib/utils.ts:28 | Reordering the values does not change the sum. |
| Utils.StatsPermutation | lib/utils.ts:26-28 | `calculateStats` gives the same result for every ordering of its input. |
| Utils.StatsSingleton | lib/utils.ts:26-28 | [x] gives min = max = avg = x. |
| Utils.StatsExampleRising | lib/utils.ts:23-31 | [10, 20, 30, 40, 50] gives min 10, max 50, avg 30. |
| Utils.StatsExampleSymmetric | lib/utils.ts:23-31 | [−10, −5, 0, 5, 10] gives −10, 10, 0; [] gives 0, 0, 0. |
| Utils.DayStart | lib/utils.ts:47-49 | A whole number of days in milliseconds, at most (serial − 25569)·86400000 and less than one day below it: the UTC midnight ⌊serial − 25569⌋ days after the epoch. |
| Utils.ParseExcelDate | lib/utils.ts:46-52 | With d = ⌊serial⌋ − 25569: when d·86400000 is a representable instant the result is the local-time rebuild of that UTC midnight, otherwise an Invalid Date. |
| Utils.ParseExcelDateFloors | lib/utils.ts:46-52 | The date depends only on ⌊serial⌋: the time of day is dropped, and the starting instant is a whole number of days from the epoch. |
| ExcelTemplate.SerialToMs | lib/excel-template.ts:138 | Epoch milliseconds (serial − 25569)·86400000; serial 25569 is epoch 0. |
| ExcelTemplate.ParseExcelDate | lib/excel-template.ts:131-152 | A Date comes back unchanged. A number goes through `new Date` of its epoch milliseconds. Text the date parser accepts gives the parsed date; text it rejects gives the current time, so text always gives a valid date. Any other value gives the current time. |
| ExcelTemplate.OneDayLater | lib/excel-template.ts:138 | One more serial day is exactly 86400000 ms later, fraction and all, when both instants are representable and the day does not cross the epoch (serial and serial + 1 on the same side of 25569). |
| ExcelTemplate.FractionKept | lib/excel-template.ts:138 | Serial 25569.5 is noon of 1970-01-01 UTC, where lib/utils.ts starts from midnight. |
| JsDate.Trunc | lib/excel-template.ts:138 | The integer part toward zero, as `new Date(x)` takes it. |
| JsDate.TimeClip | lib/excel-template.ts:138 | `new Date(x)` is valid exactly for \|x\| ≤ 8.64e15 ms, and then holds `x` truncated toward zero, within that range. |
| PowerDistribution.FindFrom | components/charts/power-distribution.tsx:43 | `find`: the first range from k on that holds p, with none before it holding p; or no range holds p. |
| PowerDistribution.FindRangeIsBucketOf | components/charts/power-distribution.tsx:32-43 | The first-match search over the six half-open ranges is the comparison chain 0–2, 2–4, 4–6, 6–8, 8–10, ≥10, with negatives unmatched. |
| PowerDistribution.RangesPartition | components/charts/power-distribution.tsx:32-43 | The ranges do not overlap. p lies in range k exactly when the search picks k, and a value is counted exactly when it is ≥ 0. |
| PowerDistribution.Boundaries | components/charts/power-distribution.tsx:35-43 | 2 counts in 2-4W, 10 in >10W and 0 in 0-2W; negative power in none. |
| PowerDistribution.CountPowerRanges | components/charts/power-distribution.tsx:32-47 | The counting pass over in-place counters: six counts, each the number of points whose power the search puts in that range. |
| PowerDistribution.CountStep | components/charts/power-distribution.tsx:41-47 | A point adds one to the count of its range and leaves the other five as they were. |
| PowerDistribution.HistogramStep | components/charts/power-distribution.tsx:41-47 | The same step on the histogram as a whole. |
| PowerDistribution.TotalIsNonNegativeCount | components/charts/power-distribution.tsx:41-47 | The six counts add up to the number of points whose power, read with `\|\| 0`, is ≥ 0. |
| PowerDistribution.ChartExample | components/charts/power-distribution.tsx:32-47 | Powers 1.5, 2.8, 3.2, 5.5, 7.8, 9.2, 11.5 give counts 1, 2, 1, 1, 1, 1. |
| PowerDistribution.FalsyPowerInFirstRange | components/charts/power-distribution.tsx:42-43 | Missing, NaN and zero power read as 0 and land in 0-2W. |
| PowerDistribution.Labels | components/charts/power-distribution.tsx:50 | Six labels, in the order of the counts. |
| ReportGenerator.Voltages | lib/report-generator.ts:21 | One value per point, missing, NaN and 0 read as 0. |
| ReportGenerator.Currents | lib/report-generator.ts:22 | As for voltage. |
| ReportGenerator.Powers | lib/report-generator.ts:23 | As for voltage. |
| ReportGenerator.MetricStats | lib/report-generator.ts:25-41 | There is no empty guard: on no data the figures are not numbers. On data they equal `calculateStats`. |
| ReportGenerator.CheckAnomalies | lib/report-generator.ts:44-53 | The pushes produce the anomaly list: at most three messages, in the order voltage, current, power. |
| ReportGenerator.AnomalyIff | lib/report-generator.ts:44-53 | Each message is in the list exactly when its metric's maximum is strictly above 30 V, 2 A or 50 W. |
| ReportGenerator.AtLimitNoAnomaly | lib/report-generator.ts:45-52 | Maxima equal to the limits give no anomaly. |
| ReportGenerator.NoDataNoAnomaly | lib/report-generator.ts:25-53 | Without data there are no maxima, so no anomaly. |
| ReportGenerator.FalsyReadsAsZero | lib/report-generator.ts:21-29 | A missing voltage counts as 0, so 0 lies between the voltage minimum and maximum. |
| ReportGenerator.AnomalyItems | lib/report-generator.ts:126-129 | An empty anomaly list renders the single item 未检测到异常数据. |
| ReportGenerator.Items | lib/report-generator.ts:127 | One `<li>` item per message, in order. |
| ReportGenerator.PageCount | lib/report-generator.ts:161-179 | For height H ≥ 0 the page count n satisfies 295·(n−1) ≤ H < 295·n, i.e. 1 + ⌊H/295⌋. Otherwise it is 1. |
| ReportGenerator.Paginate | lib/report-generator.ts:165-179 | The page loop adds `PageCount` pages, page k placing the image at −295·k. |
| ReportGenerator.PageCountExamples | lib/report-generator.ts:170-179 | Heights below a page give one page. An exact multiple of 295 adds a trailing page (295 gives 2, 590 gives 3). |
| ReportGenerator.PdfFileNameDate | lib/report-generator.ts:182 | The file is `<name>_报告_<date part of the ISO time>.pdf`. |
| ReportGenerator.Document.AppendChild | lib/report-generator.ts:150 | The container is added at the end of the body. |
| ReportGenerator.Document.RemoveLastChild | lib/report-generator.ts:185 | The last element is taken off the body. |
| ReportGenerator.GeneratePdfReport | lib/report-generator.ts:150-186 | The body ends as it started, on success and on failure. A rendering error is the result. Otherwise the PDF has the report's file name and `PageCount` pages, page k placing the image at −295·k. |
| UseAuth.MinLevel | hooks/use-auth.ts:57-58 | `Math.min` of the required levels: absent (+∞) exactly for no roles, otherwise a level of one of them and at most every level. |
| UseAuth.HasRole | hooks/use-auth.ts:44-61 | True exactly when there is a role and its level is at least the level of one of the required roles. |
| UseAuth.NoRoleNoAccess | hooks/use-auth.ts:45 | Without a role `hasRole` is false. |
| UseAuth.OneRoleIff | hooks/use-auth.ts:47-60 | One required role is met exactly when the user's level (admin 3, researcher 2, viewer 1) is at least its level. |
| UseAuth.AnyOfIff | hooks/use-auth.ts:47-60 | A list is met exactly when the user ranks at least as high as one role of it. An empty list is never met. |
| UseAuth.AnyOfIsLowest | hooks/use-auth.ts:57-60 | A list of roles is the same requirement as its lowest role alone. |
| UseAuth.HasRoleMonotone | hooks/use-auth.ts:50-60 | A higher role meets every requirement a lower one meets. |
| UseAuth.LevelInjective | hooks/use-auth.ts:50-54 | The three roles have three different levels. |
| UseAuth.CanEdit | hooks/use-auth.ts:63 | True exactly for admin and researcher. |
| UseAuth.CanDelete | hooks/use-auth.ts:64 | True exactly for admin. |
| UseAuth.CanUpload | hooks/use-auth.ts:65 | True exactly for admin and researcher. |
| UseAuth.CanExport | hooks/use-auth.ts:66 | True exactly for admin and researcher. |
| UseAuth.CanManageUsers | hooks/use-auth.ts:67 | True exactly for admin. |
| UseAuth.Capabilities | hooks/use-auth.ts:63-67 | Delete and user management only for admin. Edit, upload and export for admin and researcher, never for viewer. |
| UseAuth.ResolveRole | hooks/use-auth.ts:16-42 | No user gives no role. A failed lookup gives viewer. Otherwise it is the stored role. |
| UseAuth.FailedFetchIsViewer | hooks/use-auth.ts:31-35 | A failed lookup grants no more than a viewer has: no edit, no delete. |
| AuthGuard.Redirect | components/auth/auth-guard.tsx:14-30 | No redirect while loading. Without a user it goes to the fallback, '/login' by default. With a user it goes to '/dashboard' exactly when a requirement is given and not met, and otherwise nowhere. |
| AuthGuard.Render | components/auth/auth-guard.tsx:32-47 | The spinner exactly while loading. The children exactly when not loading, a user is present, and there is no requirement or it is met. |
| AuthGuard.RenderMatchesRedirect | components/auth/auth-guard.tsx:22-47 | The effect and the render agree: the children are shown exactly when loading is over and no redirect is issued, and a redirect comes with a blank page. |
| AuthGuard.NoRequirementAdmitsAll | components/auth/auth-guard.tsx:26-47 | Without a requirement every signed-in user sees the children. |
| AuthGuard.EmptyRequirementDenies | components/auth/auth-guard.tsx:26-47 | An empty role list is truthy and never met: a signed-in user is sent to '/dashboard' and sees nothing. |
| Middleware.SomePrefix | middleware.ts:15 | `some(startsWith)`: true exactly when one of the routes is a prefix of the path. |
| Middleware.IsProtectedRoute | middleware.ts:14-15 | True exactly when the path starts with '/dashboard', '/experiments' or '/reports'. |
| Middleware.Handle | middleware.ts:5-23 | Redirect to '/login' exactly when the path is protected and there is no session. Otherwise the request passes. |
| Middleware.PrefixExamples | middleware.ts:14-15 | Matching is by raw prefix: '/dashboardx' and '/reports/12' are protected; '/login', '/display' and '/' are not. |
| Middleware.MatchedIsProtected | middleware.ts:14-31 | Every path the matcher admits is protected, so without a session each is redirected. |
| Middleware.DashboardXNotMatched | middleware.ts:25-31 | '/dashboardx' passes the prefix test but is outside the matcher. |
| Records.FindById | app/dashboard/reports/page.tsx:64 | `find` by id: the position of the FIRST element with the id (none before it has it), or no element has it. |
| AdminUsersRoute.InsertNewestFirst | app/api/admin/users/route.ts:29 | Inserting into a newest-first list keeps it newest first and adds exactly the one row. |
| AdminUsersRoute.OrderByCreatedDesc | app/api/admin/users/route.ts:29 | `order('created_at', descending)`: a newest-first permutation of the table. |
| AdminUsersRoute.Get | app/api/admin/users/route.ts:4-39 | The guards in order: a throw from the user lookup gives 500 服务器错误, no user 401, a throw from the role query 500, a caller whose first row does not say admin 403. Past them, a thrown list query gives 500 服务器错误, a failed one 500 获取用户列表失败, a successful one 200 with the table newest first (a permutation of it). The status is always 200, 401, 403 or 500. |
| AdminUsersRoute.GetGuardOrder | app/api/admin/users/route.ts:11-23 | A signed-in non-administrator, or a caller with no row, gets 403 whatever the list query would give. |
| AdminUsersRoute.SetRole | app/api/admin/users/route.ts:65-71 | The update sets role and update time on the rows with the id and leaves every other row as it was. |
| AdminUsersRoute.NoMatchingRowNoChange | app/api/admin/users/route.ts:65-71 | An update whose id matches no row counts no row and leaves the table as it was. |
| AdminUsersRoute.Patch | app/api/admin/users/route.ts:41-83 | A body that is not JSON gives 500, even without a user. Then the same guard chain as `Get` (500, 401, 500, 403), each leaving the table as it was. For an admin: a thrown update gives 500 服务器错误; a failed update or a role outside the three gives 500 更新用户角色失败 with the table unchanged; otherwise the table becomes `SetRole`, and the reply is 200 with the first matching row (new role, new time) exactly when one row has the id, else 500 更新用户角色失败. The table changes only that way. |
| AdminUsersRoute.RefusedPatchWritesNothing | app/api/admin/users/route.ts:50-62 | A 401 or 403 leaves the table as it was. |
| AdminUsersRoute.PatchTouchesOneRow | app/api/admin/users/route.ts:65-73 | Only the row with the requested id changes, and never its id, e-mail, name or creation time. |
| Experiments.FilterExperiments | app/dashboard/experiments/page.tsx:200-204 | Keeps exactly the experiments whose lower-cased name, device type or operator contains the lower-cased term. |
| Experiments.FilterConcat | app/dashboard/experiments/page.tsx:200-204 | The filter works element by element and keeps the input order. |
| Experiments.EmptyTermKeepsAll | app/dashboard/experiments/page.tsx:200-204 | An empty search keeps every experiment. |
| Experiments.MissingFieldsNeverMatch | app/dashboard/experiments/page.tsx:202-203 | Missing device type and operator never match; only the name can. |
| Experiments.LowerIdempotent | app/dashboard/experiments/page.tsx:201-203 | Lower-casing twice is lower-casing once. |
| Experiments.CaseInsensitive | app/dashboard/experiments/page.tsx:201-203 | The term's case does not change which experiments match. |
| Experiments.ExportRows | app/dashboard/experiments/page.tsx:168-177 | The six-column header, then one row per data point, in the query's order. |
| Experiments.RowHasNoNewline | app/dashboard/experiments/page.tsx:170-177 | A row holds no line break when the numbers and the timestamp print without one. |
| Experiments.ExportLines | app/dashboard/experiments/page.tsx:168-178 | The CSV has the header line plus one line per data point, each the cells joined with ','. Nothing is escaped. |
| Experiments.ExportFileNameDate | app/dashboard/experiments/page.tsx:184 | With an ISO time `date` T `time`, the export is named `<name>_<date>.csv`. |
| Experiments.ZeroResistanceIsBlank | app/dashboard/experiments/page.tsx:176 | Missing or zero resistance is an empty field. |
| Experiments.StatusText | app/dashboard/experiments/page.tsx:219-230 | active, completed and archived give 进行中, 已完成 and 已归档; any other status is shown as it is. |
| Experiments.StatusTextInjective | app/dashboard/experiments/page.tsx:219-230 | The three captions are distinct. |
| Experiments.OffersDeleteIsCanDelete | app/dashboard/experiments/page.tsx:305 | The page's `userRole === 'admin'` grants delete to exactly those whom `canDelete` admits. |
| Reports.FailureText | app/dashboard/reports/page.tsx:126 | `error.message \|\| '请稍后重试'`. |
| Reports.HeaderBlock | app/dashboard/reports/page.tsx:88-95 | Eight header-block lines. |
| Reports.ReportRows | app/dashboard/reports/page.tsx:86-107 | The header block, the seven-column data header, then one row per data point, in order. |
| Reports.ReportCsv | app/dashboard/reports/page.tsx:108-111 | The content is the byte-order mark followed by the CSV text. |
| Reports.ReportFileNameDate | app/dashboard/reports/page.tsx:114 | With an ISO time `date` T `time`, the CSV report is named `<name>_报告_<date>.csv`. |
| Reports.GenerateReport | app/dashboard/reports/page.tsx:50-132 | No selection: nothing happens. An unknown id fails with 实验不存在, and a failed fetch with its message. With the first experiment of the id and the fetched rows (none when null): a type other than 'pdf' downloads `ReportFileName` with `ReportCsv` of them; 'pdf' hands them to the PDF generator, or fails with the generator's message. |
| Reports.ReportRowsOnOneLine | app/dashboard/reports/page.tsx:86-107 | No cell holds a line break when the printed values hold none. |
| Reports.ReportLines | app/dashboard/reports/page.tsx:86-111 | The report has 9 + n lines: the name on the third, the data header on the ninth, data row i on line 10 + i. |
| Reports.UnknownFields | app/dashboard/reports/page.tsx:91-93 | A missing or empty operator, device type or device address is written as 未知. |
| AlertMonitor.Resolve | components/alerts/alert-monitor.tsx:76-82 | The alert with the id is resolved at the given time. Every other alert stays as it was, and length and order are kept. |
| AlertMonitor.MarkAsResolved | components/alerts/alert-monitor.tsx:63-95 | An update error keeps the list and shows 操作失败. Otherwise the list is resolved and 预警已处理 is shown. |
| AlertMonitor.ResolveKeepsContent | components/alerts/alert-monitor.tsx:79 | Id, severity, message, type, values and creation time stay. The flag becomes true for the matching alert and is unchanged otherwise. |
| AlertMonitor.ResolveIdempotent | components/alerts/alert-monitor.tsx:79 | Resolving twice is resolving once, at the later time. |
| AlertMonitor.ResolveAbsent | components/alerts/alert-monitor.tsx:76-82 | An id not in the list leaves it as it is. |
| AlertMonitor.SeverityText | components/alerts/alert-monitor.tsx:127-140 | critical, high, medium and low give 严重, 高, 中 and 低; any other value is shown as it is. |
| AlertMonitor.SeverityTextInjective | components/alerts/alert-monitor.tsx:127-140 | The four captions are distinct. |
| AlertMonitor.ResolvedHidesButton | components/alerts/alert-monitor.tsx:223 | After a resolve no alert with the id offers the button. The others offer it exactly as before. |
| UsersPage.RoleName | app/dashboard/users/page.tsx:29-33 | admin, researcher and viewer give 管理员, 研究员 and 访客. |
| UsersPage.RoleNameInjective | app/dashboard/users/page.tsx:29-33 | The three names are distinct. |
| UsersPage.ReplaceRole | app/dashboard/users/page.tsx:82-84 | Only users with the id get the new role. Every other user stays as it was, and length and order are kept. |
| UsersPage.ReplaceRoleOnlyRoles | app/dashboard/users/page.tsx:82-84 | Apart from the role, every user stays as it was. |
| UsersPage.ReplaceSameRole | app/dashboard/users/page.tsx:82-84 | Setting the role a user already has gives back the same list. |
| UsersPage.UsersTable.UpdateRole | app/dashboard/users/page.tsx:69-74 | The update's error is the table's. On success the rows change by `ReplaceRole`, and the id marked at request time is recorded. |
| UsersPage.Page.UpdateUserRole | app/dashboard/users/page.tsx:66-94 | The request is sent while `updating` holds the user's id, and afterwards it is null again. On success the list is updated and 更新成功 shown. On an error the list is kept and the error is shown. The table's scripted failure is left as it was. |
| UsersPage.UpdateKeepsMirror | app/dashboard/users/page.tsx:66-94 | A list that mirrors the table still mirrors it after a role change, whether it succeeds or fails. |
| UsersPage.AdminsOnly | app/dashboard/users/page.tsx:97 | Only administrators see the list; any other signed-in user is sent to '/dashboard'. |
| InitDb.NonBlankPieceIsTrimmed | scripts/init-db.js:37 | A piece is kept exactly when its trim is non-empty. |
| InitDb.NonBlank | scripts/init-db.js:37 | The kept pieces are the non-blank ones, all of them and only them. |
| InitDb.NonBlankConcat | scripts/init-db.js:37 | The filter keeps the order of the pieces. |
| InitDb.NonBlankKeepsAll | scripts/init-db.js:37 | With no blank piece nothing is dropped. |
| InitDb.Terminated | scripts/init-db.js:38 | One statement per piece: its trim followed by ';'. |
| InitDb.Statements | scripts/init-db.js:35-40 | As many statements as non-blank pieces between the ';'s. Each begins with a non-space and ends with its single ';'. |
| InitDb.StatementsOfPieces | scripts/init-db.js:35-38 | Pieces without ';', joined by ';', come back as their non-blank pieces in order, trimmed and terminated. |
| InitDb.NaiveSplit | scripts/init-db.js:34-36 | The split ignores quoting: `p;q` with neither half blank gives two statements. |
| InitDb.TrailingTerminator | scripts/init-db.js:35-38 | A final ';' followed by a line break adds no statement. |
| InitDb.Classify | scripts/init-db.js:54-81 | No error: applied. 'already exists': skipped. A message naming 'exec_sql', 'function' or 'permission denied': continued. Anything else is fatal. |
| InitDb.RunMigration | scripts/init-db.js:43-83 | Statements are sent in order, each classified by its reply. The run goes to the end unless a reply is fatal; then it stops after that statement and reports its message. |
| InitDb.MissingExecSqlCompletes | scripts/init-db.js:73-79 | When every call fails because `exec_sql` is missing, each reply is classified as continuable: neither applied nor fatal. |
| InitDb.MigrateWithoutExecSql | scripts/init-db.js:43-83 | With `exec_sql` missing, the migration loop sends every statement, ends without a fatal error, and applies none. |

## Left out

- Database and other network I/O. Supabase queries, auth calls, sessions and realtime subscriptions are inputs fixed in advance; awaiting and concurrency are not modelled.
- The experiments page's data loading, counts and delete handler. Only the filter, the export, the captions and the delete test are modelled; the rest is I/O over those calls.
- The experiments page's export download. The Blob, the anchor click and both toasts are not modelled. The export is modelled as its CSV text (`Experiments.ExportLines`) and its file name (`Experiments.ExportFileName`, `Experiments.ExportFileNameDate`).
- Browser rendering and downloads. The PDF container's HTML, html2canvas, jsPDF drawing, Blob and anchor downloads, and the React render trees are not modelled; the PDF's image height is an input.
- Reading a workbook. `parseExcelFile` (FileReader, XLSX) is an input: the first sheet's rows or the message it was rejected with. Boolean and date-typed cells of XLSX are not modelled (a cell is empty, a number or text).
- Oracles. `parseFloat` on text, JavaScript's date-string parser, `toISOString`, number printing (`toString`, `toFixed`), `formatDate` and the local-time reconstruction of lib/utils.ts `parseExcelDate` are parameters.
- The clock. It is read once per upload: one `nowIso` stands for every `new Date()` of the call.
- Upload.UploadPage.Submit: the state the page shows while waiting for the database is not modelled, beyond the start values and the final ones. The user-name lookup is an input.
- Upload.InsertRows: the loop index moves to where the batch ends rather than `j += 100`. The two are the same whenever the loop goes on.
- Upload.UploadPage.HandleUpload: the guard `!experimentName.trim()` is stated as "the name is all white space" (`Text.TrimEmptyIffBlank` proves the equivalence).
- Upload.MapRows: its own contract gives only the length and the error. What each data point is appears in `Upload.MapRowsMeaning`.
- Floating point. Measurements are exact reals, so rounding and the non-associativity of the reduce are not modelled.
- ReportGenerator.MetricStats: NaN and ±Infinity on empty data are one value, "no figures", rather than the three JavaScript values.
- Text lower-casing. `toLowerCase` is modelled for ASCII letters only.
- UsersPage.Page.UpdateUserRole: the update uses the current list, not the possibly stale `users` captured by the page's closure.
- Order of users with equal creation times. The list query orders by `created_at` only, so the database may return rows with equal times in any order. The model returns one fixed order (`AdminUsersRoute.OrderByCreatedDesc`). The newest-first and permutation clauses of `AdminUsersRoute.Get` hold for every order the database could pick.
- The init script's fallback path (scripts/init-db.js:113-215) is not modelled. It sits inside the `catch` opened at scripts/init-db.js:106, so it runs after a fatal migration error. It prints manual-migration instructions, probes five tables for error 42P01, and, when all exist and `experiments` is empty, inserts a sample experiment and ten sample data points with random readings (scripts/init-db.js:167-203). It needs the table probes, the clock and `Math.random`.
- The init script's file ends one `}` short of closing `initDatabase`, and `initDatabase()` is called twice (scripts/init-db.js:220, 223). The model takes one run of the function as written up to scripts/init-db.js:106.
- InitDb.RunMigration: the statement-type log line (the regular expression at scripts/init-db.js:47) and the 100-character excerpt are console output, and are left out.
- The table-verification pass after the migration loop (scripts/init-db.js:88-98) only prints, and is left out.
- Middleware.Handle: `config.matcher` is modelled as "a section root or anything below it" (`Middleware.Matched`), not Next.js's full path-pattern syntax.
- The power trigger and the alert creation rule. Power is computed by a database trigger that is not part of this model. The "critical above 1.5× threshold" rule appears only in a test helper.
