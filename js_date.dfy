/** The part of JavaScript's `Date` that the conversions depend on: a Date holds
    an integer count of milliseconds since 1970-01-01T00:00:00Z, or is the
    "Invalid Date" (time value NaN). `new Date(x)` for a number `x` applies
    TimeClip: values beyond 8.64e15 ms in magnitude give an Invalid Date, all
    others are truncated toward zero. */
module JsDate {

  datatype Date = Valid(ms: int) | Invalid

  const MaxTime: int := 8_640_000_000_000_000

  const MsPerDay: int := 86_400_000

  /** Days from 1899-12-30 (spreadsheet day 0) to 1970-01-01. */
  const ExcelEpochOffset: int := 25569

  /** Truncation toward zero, as ToIntegerOrInfinity does. */
  function Trunc(x: real): (n: int)
    ensures x >= 0.0 ==> n as real <= x < n as real + 1.0
    ensures x < 0.0 ==> n as real - 1.0 < x <= n as real
  {
    if x >= 0.0 then x.Floor else -((-x).Floor)
  }

  /** `new Date(x)` for a finite number `x`. */
  function TimeClip(x: real): (d: Date)
    ensures d.Valid? <==> -(MaxTime as real) <= x <= MaxTime as real
    ensures d.Valid? ==> -MaxTime <= d.ms <= MaxTime && d.ms == Trunc(x)
  {
    if x < -(MaxTime as real) || x > MaxTime as real then Invalid else Valid(Trunc(x))
  }
}
