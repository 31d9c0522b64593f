/** lib/excel-template.ts: `parseExcelDate`, the template module's cell-to-Date
    conversion. Unlike the day-floored conversion in lib/utils.ts it keeps the
    fraction of the day, and it never fails on text: whatever does not parse
    becomes the current time. The upload page writes the same branches out
    inline (see `Upload.TimestampMatchesTemplate`). */
module ExcelTemplate {
  import opened JsDate
  import Utils

  /** The JavaScript value found in a spreadsheet cell, by `instanceof`/`typeof`. */
  datatype JsValue =
    | DateValue(date: Date)
    | NumberValue(n: real)
    | StringValue(s: string)
    | OtherValue

  /** `(serial - 25569) * 86400 * 1000`: the serial as epoch milliseconds. */
  function SerialToMs(serial: real): (ms: real)
    ensures ms == (serial - ExcelEpochOffset as real) * (MsPerDay as real)
    ensures serial == ExcelEpochOffset as real ==> ms == 0.0
  {
    (serial - 25569.0) * 86400.0 * 1000.0
  }

  /** `parseExcelDate(excelDate)`. `now` is `new Date()`; `parseDate` is
      `new Date(text)`, JavaScript's date-string parser. */
  function ParseExcelDate(v: JsValue, now: int, parseDate: string -> Date): (d: Date)
    ensures v.DateValue? ==> d == v.date
    ensures v.NumberValue? ==> d == TimeClip(SerialToMs(v.n))
    ensures v.StringValue? ==> d.Valid?
    ensures v.StringValue? && parseDate(v.s).Valid? ==> d == parseDate(v.s)
    ensures v.StringValue? && parseDate(v.s).Invalid? ==> d == Valid(now)
    ensures v.OtherValue? ==> d == Valid(now)
  {
    match v
    case DateValue(date) => date
    case NumberValue(n) => TimeClip((n - 25569.0) * 86400.0 * 1000.0)
    case StringValue(s) =>
      var date := parseDate(s);
      if date.Invalid? then Valid(now) else date
    case OtherValue => Valid(now)
  }

  /** One more day in the serial is exactly 86400000 ms later, fraction and
      all, when both instants are representable and the day does not cross the
      epoch (truncation toward zero rounds up before 1970 and down after it, so
      across the epoch the step can lose a millisecond). */
  lemma OneDayLater(serial: real, now: int, parseDate: string -> Date)
    requires serial >= ExcelEpochOffset as real || serial + 1.0 <= ExcelEpochOffset as real
    requires -(MaxTime as real) <= SerialToMs(serial)
    requires SerialToMs(serial + 1.0) <= MaxTime as real
    ensures ParseExcelDate(NumberValue(serial), now, parseDate).Valid?
    ensures ParseExcelDate(NumberValue(serial + 1.0), now, parseDate).Valid?
    ensures ParseExcelDate(NumberValue(serial + 1.0), now, parseDate).ms
         == ParseExcelDate(NumberValue(serial), now, parseDate).ms + MsPerDay
  {
    var a, b := SerialToMs(serial), SerialToMs(serial + 1.0);
    assert b == a + 86400000.0;
    if serial >= ExcelEpochOffset as real {
      assert a >= 0.0;
      assert b.Floor == a.Floor + MsPerDay;
    } else {
      assert b <= 0.0 && a < 0.0;
      assert (-a) == (-b) + 86400000.0;
      assert (-a).Floor == (-b).Floor + MsPerDay;
      if b == 0.0 {
        assert Trunc(b) == 0;
        assert Trunc(a) == -MsPerDay;
      }
    }
  }

  /** The fraction of the day is kept: serial 25569.5 is noon of 1970-01-01 UTC,
      while the day-floored conversion of lib/utils.ts starts from midnight. */
  lemma FractionKept(now: int, parseDate: string -> Date)
    ensures ParseExcelDate(NumberValue(25569.5), now, parseDate) == Valid(43_200_000)
    ensures Utils.DayStart(25569.5) == 0.0
  {
    assert (25569.5 - 25569.0) * 86400.0 * 1000.0 == 43200000.0;
    assert (25569.5 - 25569 as real).Floor == 0;
  }
}
