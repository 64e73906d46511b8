/** The server's date helpers (Server/src/utils/time.ts). */
module ServerTime {
  import opened Text
  import opened Clock
  import WebTime

  /** `addMinutes(m, date)`: a new instant m minutes after date. */
  function AddMinutes(m: int, date: int): (r: int)
    ensures r - date == m * MINUTE_MS
  {
    date + m * 60 * 1000
  }

  /** Adding minutes twice is adding their sum once. */
  lemma AddMinutesCompose(a: int, b: int, date: int)
    ensures AddMinutes(a, AddMinutes(b, date)) == AddMinutes(a + b, date)
  {
  }

  /** `getDaysDiff`: whole days between two instants, rounded up; the client's getDaysDifference. */
  function GetDaysDiff(date1: int, date2: int): (r: nat)
    ensures r == WebTime.GetDaysDifference(date1, date2)
    ensures r == 0 <==> date1 == date2
    ensures (r - 1) * DAY_MS < WebTime.Abs(date1 - date2) <= r * DAY_MS
  {
    var oneDay := 24 * 60 * 60 * 1000;
    (WebTime.Abs(date1 - date2) + oneDay - 1) / oneDay
  }

  /** `displayDate`: "DD/MM/YYYY", the same text as the client's displayDate. */
  function DisplayDate(f: DateFields): (r: string)
    requires ValidFields(f)
    ensures r == WebTime.DisplayDate(f)
  {
    Pad2(f.date) + "/" + Pad2(f.month + 1) + "/" + IntToString(f.year)
  }

  /** `getCurrentMonth`: "YYYY-MM", the same key the client's getCurrentMonth builds. */
  function GetCurrentMonth(f: DateFields): (r: string)
    requires ValidFields(f)
    ensures r == WebTime.GetCurrentMonth(f)
  {
    IntToString(f.year) + "-" + Pad2(f.month + 1)
  }
}
