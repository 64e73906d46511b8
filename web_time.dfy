/**
 * The client's date helpers (Web/src/utils/time.ts). Instants are milliseconds;
 * `AddDays` reads them as local time with a fixed offset, so a local day is a
 * block of DAY_MS milliseconds. The calendar getters of a `Date` are
 * supplied as a `DateFields` record.
 */
module WebTime {
  import opened Text
  import opened Clock

  /**
   * `addDays(days, date, isNoon)`: the same time of day `days` local days
   * later; with `isNoon` (the default) the time of day is reset to 00:00:00.000.
   */
  function AddDays(days: int, date: int, isNoon: bool := true): (r: int)
    ensures r / DAY_MS == date / DAY_MS + days
    ensures isNoon ==> r % DAY_MS == 0
    ensures !isNoon ==> r % DAY_MS == date % DAY_MS
  {
    var shifted := date + days * DAY_MS;
    if isNoon then shifted - shifted % DAY_MS else shifted
  }

  /** `getCurrentMonth`: the "YYYY-MM" key of a date, month counted from 1. */
  function GetCurrentMonth(f: DateFields): (r: string)
    requires ValidFields(f)
    ensures |r| == |IntToString(f.year)| + 3
    ensures r[..|r| - 3] == IntToString(f.year) && r[|r| - 3] == '-'
    ensures ParseDigits(r[|r| - 2..]) == f.month + 1
  {
    var r := IntToString(f.year) + "-" + Pad2(f.month + 1);
    assert r[|r| - 2..] == Pad2(f.month + 1);
    r
  }

  /** Two dates share a month key exactly when they share year and month. */
  lemma GetCurrentMonthInjective(f: DateFields, g: DateFields)
    requires ValidFields(f) && ValidFields(g)
    ensures GetCurrentMonth(f) == GetCurrentMonth(g) <==> f.year == g.year && f.month == g.month
  {
    var a, b := GetCurrentMonth(f), GetCurrentMonth(g);
    if a == b {
      assert IntToString(f.year) == a[..|a| - 3] == IntToString(g.year);
      IntToStringInjective(f.year, g.year);
    }
  }

  /** The order `sortByDate` sorts into: ascending by time when asc, descending otherwise. */
  predicate InOrder<T>(time: T -> int, asc: bool, x: T, y: T) {
    if asc then time(x) <= time(y) else time(y) <= time(x)
  }

  predicate SortedBy<T>(time: T -> int, asc: bool, s: seq<T>) {
    forall i, j :: 0 <= i < j < |s| ==> InOrder(time, asc, s[i], s[j])
  }

  /**
   * `sortByDate(arr, key, asc)`: sorts a copy of arr by the instant `time`
   * reads off each element; arr itself is a value and is not changed.
   */
  method SortByDate<T>(arr: seq<T>, time: T -> int, asc: bool := true) returns (r: seq<T>)
    ensures multiset(r) == multiset(arr)
    ensures SortedBy(time, asc, r)
  {
    var a := new T[|arr|](k requires 0 <= k < |arr| => arr[k]);
    assert a[..] == arr;
    var i := 0;
    while i < a.Length
      invariant 0 <= i <= a.Length
      invariant SortedBy(time, asc, a[..i])
      invariant multiset(a[..]) == multiset(arr)
    {
      Insert(a, i, time, asc);
      i := i + 1;
    }
    r := a[..];
    assert a[..a.Length] == r;
  }

  /** Moves a[i] left past every element that must come after it. */
  method Insert<T>(a: array<T>, i: nat, time: T -> int, asc: bool)
    requires i < a.Length && SortedBy(time, asc, a[..i])
    modifies a
    ensures SortedBy(time, asc, a[..i + 1])
    ensures multiset(a[..]) == old(multiset(a[..]))
  {
    var j := i;
    while j > 0 && !InOrder(time, asc, a[j - 1], a[j])
      invariant 0 <= j <= i
      invariant forall k, l :: 0 <= k < l <= i && l != j ==> InOrder(time, asc, a[k], a[l])
      invariant forall l :: j < l <= i ==> InOrder(time, asc, a[j], a[l])
      invariant multiset(a[..]) == old(multiset(a[..]))
    {
      Swap(a, j - 1, j);
      j := j - 1;
    }
  }

  method Swap<T>(a: array<T>, i: nat, j: nat)
    requires i < j < a.Length
    modifies a
    ensures a[i] == old(a[j]) && a[j] == old(a[i])
    ensures forall k :: 0 <= k < a.Length && k != i && k != j ==> a[k] == old(a[k])
    ensures multiset(a[..]) == old(multiset(a[..]))
  {
    a[i], a[j] := a[j], a[i];
  }

  function Abs(x: int): nat {
    if x < 0 then -x else x
  }

  /** `getDaysDifference`: whole days between two instants, rounded up. */
  function GetDaysDifference(date1: int, date2: int): (r: nat)
    ensures (r - 1) * DAY_MS < Abs(date1 - date2) <= r * DAY_MS
    ensures r == 0 <==> date1 == date2
  {
    (Abs(date1 - date2) + DAY_MS - 1) / DAY_MS
  }

  /** getDaysDifference does not depend on the order of its arguments. */
  lemma GetDaysDifferenceSymmetric(date1: int, date2: int)
    ensures GetDaysDifference(date1, date2) == GetDaysDifference(date2, date1)
  {
  }

  /** `displayDate`: "DD/MM/YYYY" with two-digit day and month. */
  function DisplayDate(f: DateFields): (r: string)
    requires ValidFields(f)
    ensures |r| == 6 + |IntToString(f.year)|
    ensures r[2] == '/' && r[5] == '/'
    ensures ParseDigits(r[..2]) == f.date && ParseDigits(r[3..5]) == f.month + 1
    ensures r[6..] == IntToString(f.year)
  {
    var r := Pad2(f.date) + "/" + Pad2(f.month + 1) + "/" + IntToString(f.year);
    assert r[..2] == Pad2(f.date) && r[3..5] == Pad2(f.month + 1);
    r
  }

  /**
   * `formatRelativeTime`: how long ago `date` was at `now`, in the largest
   * unit below a week, or the date itself from seven days on.
   */
  function FormatRelativeTime(now: int, date: int, dateFields: DateFields): (r: string)
    requires ValidFields(dateFields)
    ensures now - date < MINUTE_MS ==> r == "just now"
    ensures MINUTE_MS <= now - date < HOUR_MS ==> r == NatToString((now - date) / MINUTE_MS) + "m ago"
    ensures HOUR_MS <= now - date < DAY_MS ==> r == NatToString((now - date) / HOUR_MS) + "h ago"
    ensures DAY_MS <= now - date < 7 * DAY_MS ==> r == NatToString((now - date) / DAY_MS) + "d ago"
    ensures now - date >= 7 * DAY_MS ==> r == DisplayDate(dateFields)
  {
    var diffInSeconds := (now - date) / 1000;
    var diffInMinutes := diffInSeconds / 60;
    var diffInHours := diffInMinutes / 60;
    var diffInDays := diffInHours / 24;
    FloorSteps(now - date);
    if diffInSeconds < 60 then "just now"
    else if diffInMinutes < 60 then NatToString(diffInMinutes) + "m ago"
    else if diffInHours < 24 then NatToString(diffInHours) + "h ago"
    else if diffInDays < 7 then NatToString(diffInDays) + "d ago"
    else DisplayDate(dateFields)
  }

  /** Flooring second by second is flooring once by the whole unit. */
  lemma FloorSteps(x: int)
    ensures x / 1000 / 60 == x / MINUTE_MS
    ensures x / 1000 / 60 / 60 == x / HOUR_MS
    ensures x / 1000 / 60 / 60 / 24 == x / DAY_MS
    ensures x / 1000 < 60 <==> x < MINUTE_MS
    ensures x / MINUTE_MS < 60 <==> x < HOUR_MS
    ensures x / HOUR_MS < 24 <==> x < DAY_MS
    ensures x / DAY_MS < 7 <==> x < 7 * DAY_MS
  {
  }

  /** `isSameDay`: same year, month and day of the month. */
  predicate IsSameDay(d1: DateFields, d2: DateFields) {
    d1.year == d2.year && d1.month == d2.month && d1.date == d2.date
  }

  /** isSameDay is an equivalence: reflexive, symmetric and transitive. */
  lemma IsSameDayEquivalence(a: DateFields, b: DateFields, c: DateFields)
    ensures IsSameDay(a, a)
    ensures IsSameDay(a, b) == IsSameDay(b, a)
    ensures IsSameDay(a, b) && IsSameDay(b, c) ==> IsSameDay(a, c)
  {
  }

  /** `formatUTCTime`: "YYYY/MM/DD HH:MM UTC" from the UTC fields of a date. */
  function FormatUTCTime(utc: DateFields): (r: string)
    requires ValidFields(utc)
    ensures var y := |IntToString(utc.year)|;
      && |r| == y + 16
      && r[..y] == IntToString(utc.year)
      && r[y] == '/' && r[y + 3] == '/' && r[y + 6] == ' ' && r[y + 9] == ':'
      && TwoDigitsAt(r, y + 1, utc.month + 1)
      && TwoDigitsAt(r, y + 4, utc.date)
      && TwoDigitsAt(r, y + 7, utc.hours)
      && TwoDigitsAt(r, y + 10, utc.minutes)
      && r[y + 12..] == " UTC"
  {
    var r := IntToString(utc.year) + "/" + Pad2(utc.month + 1) + "/" + Pad2(utc.date)
      + " " + Pad2(utc.hours) + ":" + Pad2(utc.minutes) + " UTC";
    UtcLayout(IntToString(utc.year), Pad2(utc.month + 1), Pad2(utc.date), Pad2(utc.hours), Pad2(utc.minutes));
    r
  }

  /** Where each piece of "Y/MM/DD HH:MM UTC" sits, whatever the pieces are. */
  lemma UtcLayout(y: string, mm: string, dd: string, hh: string, mi: string)
    requires |mm| == 2 && |dd| == 2 && |hh| == 2 && |mi| == 2
    ensures var r := y + "/" + mm + "/" + dd + " " + hh + ":" + mi + " UTC";
      var n := |y|;
      && |r| == n + 16
      && r[..n] == y
      && r[n] == '/' && r[n + 3] == '/' && r[n + 6] == ' ' && r[n + 9] == ':'
      && r[n + 1..n + 3] == mm && r[n + 4..n + 6] == dd && r[n + 7..n + 9] == hh && r[n + 10..n + 12] == mi
      && r[n + 12..] == " UTC"
  {
    var r := y + "/" + mm + "/" + dd + " " + hh + ":" + mi + " UTC";
    Middle(y + "/", mm, "/" + dd + " " + hh + ":" + mi + " UTC");
    assert r == (y + "/") + mm + ("/" + dd + " " + hh + ":" + mi + " UTC");
    Middle(y + "/" + mm + "/", dd, " " + hh + ":" + mi + " UTC");
    assert r == (y + "/" + mm + "/") + dd + (" " + hh + ":" + mi + " UTC");
    Middle(y + "/" + mm + "/" + dd + " ", hh, ":" + mi + " UTC");
    assert r == (y + "/" + mm + "/" + dd + " ") + hh + (":" + mi + " UTC");
    Middle(y + "/" + mm + "/" + dd + " " + hh + ":", mi, " UTC");
  }
}
