/** Record shapes of the dashboard (types/index.ts, types/database.ts) and the
    JavaScript value conventions the pages apply to them: `x || 0`, `x || '未知'`,
    and the "replace the element whose id matches" list update. Timestamps that
    are compared are integer milliseconds; timestamps that are only carried
    along stay strings. */
module Records {
  import opened Wrappers

  /** The three roles, with their spelling in the database and in the code. */
  datatype Role = Admin | Researcher | Viewer

  function RoleKey(r: Role): string {
    match r
    case Admin => "admin"
    case Researcher => "researcher"
    case Viewer => "viewer"
  }

  function ParseRole(s: string): (r: Option<Role>)
    ensures r.Some? ==> RoleKey(r.value) == s
  {
    if s == "admin" then Some(Admin)
    else if s == "researcher" then Some(Researcher)
    else if s == "viewer" then Some(Viewer)
    else None
  }

  lemma ParseRoleKey(r: Role)
    ensures ParseRole(RoleKey(r)) == Some(r)
  {
  }

  /** A JavaScript number field read from the database: a real value, `NaN`, or
      `null`/`undefined`. */
  datatype Measure = Real(r: real) | NaN | Null

  /** `m || 0`: `NaN`, `null`, `undefined` and `0` all read as zero. */
  function OrZero(m: Measure): (v: real)
    ensures m.Real? ==> v == m.r
    ensures !m.Real? ==> v == 0.0
  {
    if m.Real? then m.r else 0.0
  }

  /** `s || '未知'` on an optional text field: missing and empty both read as 未知. */
  function OrUnknown(s: Option<string>): (r: string)
    ensures s.Some? && s.value != "" ==> r == s.value
    ensures s.None? || s.value == "" ==> r == "未知"
  {
    if s.Some? && s.value != "" then s.value else "未知"
  }

  /** How `Array.prototype.join` prints a number field: `null`/`undefined` as
      nothing, NaN as "NaN", a number by `Number.prototype.toString`, which is
      the parameter `show`. */
  function Cell(m: Measure, show: real -> string): (s: string)
    ensures m.Null? ==> s == ""
    ensures m.NaN? ==> s == "NaN"
    ensures m.Real? ==> s == show(m.r)
  {
    match m
    case Real(r) => show(r)
    case NaN => "NaN"
    case Null => ""
  }

  /** `m || ''` printed by `join`: 0, NaN and missing values become nothing. */
  function TruthyCell(m: Measure, show: real -> string): (s: string)
    ensures m.Real? && m.r != 0.0 ==> s == show(m.r)
    ensures !m.Real? || m.r == 0.0 ==> s == ""
  {
    if m.Real? && m.r != 0.0 then show(m.r) else ""
  }

  /** Experiment (types/index.ts:14-25). */
  datatype Experiment = Experiment(
    id: string,
    experimentName: string,
    description: Option<string>,
    operatorName: Option<string>,
    deviceAddress: Option<string>,
    deviceType: Option<string>,
    status: string,
    createdAt: string,
    updatedAt: string)

  /** A stored measurement row (types/index.ts:3-12, types/database.ts:77-88). */
  datatype DataPoint = DataPoint(
    id: string,
    sequenceNumber: Measure,
    timestamp: string,
    voltage: Measure,
    current: Measure,
    power: Measure,
    resistance: Measure,
    temperature: Measure)

  /** Alert (types/index.ts:41-52). */
  datatype Alert = Alert(
    id: string,
    experimentId: Option<string>,
    alertType: string,
    severity: string,
    message: string,
    thresholdValue: Measure,
    actualValue: Measure,
    isResolved: bool,
    createdAt: string,
    resolvedAt: Option<string>)

  /** A users row (types/database.ts:13-20); times in milliseconds. */
  datatype UserRow = UserRow(
    id: string,
    email: string,
    name: string,
    role: Role,
    createdAt: int,
    updatedAt: int)

  function ExperimentId(e: Experiment): string { e.id }

  function UserId(u: UserRow): string { u.id }

  /** `xs.find(x => key(x) === id)`, as a position: the FIRST element whose key
      is `id`; None when no element has it. */
  function FindById<T>(xs: seq<T>, id: string, key: T -> string): (r: Option<nat>)
    ensures r.Some? ==> r.value < |xs| && key(xs[r.value]) == id
    ensures r.Some? ==> forall j :: 0 <= j < r.value ==> key(xs[j]) != id
    ensures r.None? ==> forall i :: 0 <= i < |xs| ==> key(xs[i]) != id
  {
    if |xs| == 0 then None
    else if key(xs[0]) == id then Some(0)
    else
      var rest := FindById(xs[1..], id, key);
      if rest.None? then None else Some(rest.value + 1)
  }

  /** `xs.map(x => matches(x) ? f(x) : x)`: the matching elements are replaced
      by their update, every other element stays where and as it was. */
  function UpdateWhere<T>(xs: seq<T>, matches: T -> bool, f: T -> T): (r: seq<T>)
    ensures |r| == |xs|
    ensures forall i :: 0 <= i < |xs| && matches(xs[i]) ==> r[i] == f(xs[i])
    ensures forall i :: 0 <= i < |xs| && !matches(xs[i]) ==> r[i] == xs[i]
  {
    if |xs| == 0 then []
    else [if matches(xs[0]) then f(xs[0]) else xs[0]] + UpdateWhere(xs[1..], matches, f)
  }
}
