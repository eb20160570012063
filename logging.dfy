// Provisioning script logs (src/logging.rs): the UTC timestamp in their
// names, the names a running and a finished log get, rotation of old logs
// and the listing that `rum log` reads. The logs directory is the set of
// file names it holds; the clock and `read_dir`'s order are parameters.

module Logging {
  import opened Wrappers
  import opened Strings
  import Sorting

  // ---------------------------------------------------------------------
  // utc_timestamp
  // ---------------------------------------------------------------------

  /** Years of an era before the one starting at day `doe` of the era,
      counted from 1 March of the era's first year. */
  function YearOfEra(doe: int): int
  {
    (doe - doe / 1460 + doe / 36524 - doe / 146096) / 365
  }

  /** The day within its March-based year of day `doe` of the era. */
  function DayOfYear(doe: int): int
  {
    var yoe := YearOfEra(doe);
    doe - (365 * yoe + yoe / 4 - yoe / 100)
  }

  /** The month counted from March (0 = March, 11 = February). */
  function MonthIndex(doy: int): int
  {
    (5 * doy + 2) / 153
  }

  function DayOfMonth(doy: int): int
  {
    doy - (153 * MonthIndex(doy) + 2) / 5 + 1
  }

  function CivilMonth(mp: int): int
  {
    if mp < 10 then mp + 3 else mp - 9
  }

  predicate IsLeap(y: int)
  {
    y % 4 == 0 && (y % 100 != 0 || y % 400 == 0)
  }

  /** The length of month `m` of year `y` in the Gregorian calendar. */
  function DaysInMonth(y: int, m: int): int
  {
    if m == 2 then (if IsLeap(y) then 29 else 28)
    else if m == 4 || m == 6 || m == 9 || m == 11 then 30
    else 31
  }

  datatype Date = Date(year: int, month: int, day: int)

  /** Howard Hinnant's `civil_from_days` for a day on or after 1970-01-01
      (`secs` is unsigned, so `days` and `z` are never negative). */
  function CivilFromDays(days: nat): (r: Date)
    ensures r.year >= 1600 && 1 <= r.month <= 12 && 1 <= r.day <= 31
  {
    var z := days + 719468;
    var era := z / 146097;
    YearOfEraSplit(z - era * 146097);
    MonthDay(DayOfYear(z - era * 146097));
    EraDate(z - era * 146097, era)
  }

  /** The date of day `doe` (counted from a 1 March) of era `era`. */
  function EraDate(doe: int, era: int): Date
  {
    var yoe := YearOfEra(doe);
    var doy := DayOfYear(doe);
    var m := CivilMonth(MonthIndex(doy));
    Date(yoe + era * 400 + (if m <= 2 then 1 else 0), m, DayOfMonth(doy))
  }

  /** The era is cut into centuries of 36524 days, four-year blocks of
      1461 days and years of 365 days; the year-of-era formula picks
      exactly that block structure, so the day of the year is in 0..365
      and day 365 (29 February) falls only in a leap year. */
  lemma YearOfEraSplit(doe: int)
    requires 0 <= doe <= 146096
    ensures 0 <= YearOfEra(doe) <= 399 && 0 <= DayOfYear(doe) <= 365
    ensures DayOfYear(doe) == 365 ==>
      (YearOfEra(doe) + 1) % 4 == 0 && ((YearOfEra(doe) + 1) % 100 != 0 || YearOfEra(doe) == 399)
  {
    if doe == 146096 {
      assert YearOfEra(doe) == 399;
    } else {
      var c := doe / 36524;
      var r := doe % 36524;
      var q := r / 1461;
      var s := r % 1461;
      assert c <= 3 && q <= 24 && doe == 36524 * c + 1461 * q + s;
      assert q == 24 ==> s <= 1459;
      var e := if 24 * c + q + s >= 1460 then 1 else 0;
      assert doe / 1460 == 25 * c + q + e;
      assert doe / 36524 == c && doe / 146096 == 0;
      var t := (s - e) / 365;
      assert 0 <= t <= 3;
      assert YearOfEra(doe) == 100 * c + 4 * q + t;
      var yoe := YearOfEra(doe);
      assert yoe / 4 == 25 * c + q && yoe / 100 == c;
      assert DayOfYear(doe) == s - 365 * t;
      assert DayOfYear(doe) == 365 ==> t == 3 && q < 24;
    }
  }

  /** A day of a March-based year lands on a real day of its month;
      day 365 is 29 February. */
  lemma MonthDay(doy: int)
    requires 0 <= doy <= 365
    ensures 0 <= MonthIndex(doy) <= 11
    ensures var m := CivilMonth(MonthIndex(doy));
      1 <= m <= 12 && 1 <= DayOfMonth(doy) && DayOfMonth(doy) <= (if m == 2 then 29 else DaysInMonth(1, m))
    ensures CivilMonth(MonthIndex(doy)) == 2 && DayOfMonth(doy) == 29 ==> doy == 365
  {
    var mp := MonthIndex(doy);
    assert 153 * mp <= 5 * doy + 2 < 153 * mp + 153;
  }

  /** Whole eras of 400 years do not change whether a year is leap. */
  lemma LeapShift(y: int, era: int)
    ensures IsLeap(y + era * 400) == IsLeap(y)
  {
    var a := y + era * 400;
    assert a == 4 * (y / 4 + 100 * era) + y % 4;
    assert a == 100 * (y / 100 + 4 * era) + y % 100;
    assert a == 400 * (y / 400 + era) + y % 400;
    ModUnique(a, 4, y / 4 + 100 * era, y % 4);
    ModUnique(a, 100, y / 100 + 4 * era, y % 100);
    ModUnique(a, 400, y / 400 + era, y % 400);
  }

  lemma ModUnique(a: int, m: int, k: int, r: int)
    requires m == 4 || m == 100 || m == 400
    requires a == m * k + r && 0 <= r < m
    ensures a % m == r
  {
  }

  /** Every day on or after the epoch becomes a real Gregorian date. */
  lemma CivilFromDaysValid(days: nat)
    ensures var date := CivilFromDays(days);
      1 <= date.month <= 12 && 1 <= date.day <= DaysInMonth(date.year, date.month)
  {
    var z := days + 719468;
    var era := z / 146097;
    var doe := z - era * 146097;
    assert 0 <= doe <= 146096;
    assert CivilFromDays(days) == EraDate(doe, era);
    EraDayValid(doe, era);
  }

  /** Day `doe` of era `era` is a real day of its month. */
  lemma EraDayValid(doe: int, era: int)
    requires 0 <= doe <= 146096
    ensures var date := EraDate(doe, era);
      1 <= date.month <= 12 && 1 <= date.day <= DaysInMonth(date.year, date.month)
  {
    var yoe := YearOfEra(doe);
    var doy := DayOfYear(doe);
    YearOfEraSplit(doe);
    MonthDay(doy);
    var m := CivilMonth(MonthIndex(doy));
    var y := yoe + (if m <= 2 then 1 else 0);
    LeapShift(y, era);
    assert m == 2 && DayOfMonth(doy) == 29 ==> IsLeap(y);
    assert y + era * 400 == yoe + era * 400 + (if m <= 2 then 1 else 0);
  }

  /** `utc_timestamp` for the clock reading `secs` (seconds since the
      epoch): `YYYY-MM-DDTHH-MM-SS`, every field zero-padded. */
  function UtcTimestamp(secs: nat): (r: string)
    ensures |r| >= 19
  {
    var date, t := CivilFromDays(secs / 86400), secs % 86400;
    ZeroPadValue(date.year, 4);
    ZeroPadValue(date.month, 2);
    ZeroPadValue(date.day, 2);
    ZeroPadValue(t / 3600, 2);
    ZeroPadValue(t % 3600 / 60, 2);
    ZeroPadValue(t % 60, 2);
    Format(date, t)
  }

  /** A date and a second of the day as `YYYY-MM-DDTHH-MM-SS`. */
  function Format(date: Date, t: nat): string
    requires date.year >= 0 && date.month >= 0 && date.day >= 0
  {
    ZeroPad(date.year, 4) + "-" + ZeroPad(date.month, 2) + "-" + ZeroPad(date.day, 2) + "T"
    + ZeroPad(t / 3600, 2) + "-" + ZeroPad(t % 3600 / 60, 2) + "-" + ZeroPad(t % 60, 2)
  }

  /** The time of day splits into hours < 24, minutes < 60 and
      seconds < 60 that add back up to it. */
  lemma TimeOfDay(secs: nat)
    ensures var t := secs % 86400;
      t / 3600 < 24 && t % 3600 / 60 < 60 && t % 60 < 60 &&
      t / 3600 * 3600 + t % 3600 / 60 * 60 + t % 60 == t
  {
    var t := secs % 86400;
    assert t % 3600 % 60 == t % 60;
  }

  /** The six fields of a timestamp, as the text reads them back. */
  datatype Fields = Fields(year: nat, month: nat, day: nat, hour: nat, minute: nat, second: nat)

  /** Reads `YYYY-MM-DDTHH-MM-SS` (a year of four digits). */
  function ReadTimestamp(ts: string): Option<Fields>
  {
    if |ts| == 19 && ts[4] == '-' && ts[7] == '-' && ts[10] == 'T' && ts[13] == '-' && ts[16] == '-' &&
       AllDigits(ts[..4]) && AllDigits(ts[5..7]) && AllDigits(ts[8..10]) &&
       AllDigits(ts[11..13]) && AllDigits(ts[14..16]) && AllDigits(ts[17..])
    then Some(Fields(DigitsValue(ts[..4]), DigitsValue(ts[5..7]), DigitsValue(ts[8..10]),
                     DigitsValue(ts[11..13]), DigitsValue(ts[14..16]), DigitsValue(ts[17..])))
    else None
  }

  /** A zero-padded field of value below 10^w is exactly `w` digits. */
  lemma PadWidth(n: nat, w: nat)
    requires 1 <= w && n < Pow10(w)
    ensures |ZeroPad(n, w)| == w && AllDigits(ZeroPad(n, w)) && DigitsValue(ZeroPad(n, w)) == n
  {
    var d := NatToString(n);
    ZeroPadValue(n, w);
    NatToStringLength(n, w);
    var k: nat := if |d| >= w then 0 else w - |d|;
    ZeroPadShape(n, w, d, k);
    ZerosValue(k);
  }

  function Pow10(w: nat): (r: nat)
    ensures r >= 1
  {
    if w == 0 then 1 else 10 * Pow10(w - 1)
  }

  /** The decimal text of a value below 10^w has at most `w` digits. */
  lemma {:induction false} NatToStringLength(n: nat, w: nat)
    requires 1 <= w && n < Pow10(w)
    ensures |NatToString(n)| <= w
    decreases w
  {
    if n >= 10 {
      NatToStringLength(n / 10, w - 1);
    }
  }

  /** Where the six fields sit in the text. */
  lemma Layout(y: string, mo: string, d: string, h: string, mi: string, s: string)
    requires |y| == 4 && |mo| == 2 && |d| == 2 && |h| == 2 && |mi| == 2 && |s| == 2
    ensures var ts := y + "-" + mo + "-" + d + "T" + h + "-" + mi + "-" + s;
      |ts| == 19 && ts[4] == '-' && ts[7] == '-' && ts[10] == 'T' && ts[13] == '-' && ts[16] == '-' &&
      ts[..4] == y && ts[5..7] == mo && ts[8..10] == d && ts[11..13] == h && ts[14..16] == mi && ts[17..] == s
  {
    var date := y + "-" + mo + "-" + d;
    var time := h + "-" + mi + "-" + s;
    var ts := y + "-" + mo + "-" + d + "T" + h + "-" + mi + "-" + s;
    assert ts == date + "T" + time;
    assert date[..4] == y && date[5..7] == mo && date[8..] == d;
    assert time[..2] == h && time[3..5] == mi && time[6..] == s;
    assert ts[..10] == date && ts[11..] == time;
  }

  /** Before year 10000 the timestamp is 19 characters long and reads
      back as the date and the time of day of `secs`. */
  lemma TimestampReadsBack(secs: nat)
    requires CivilFromDays(secs / 86400).year < 10000
    ensures var date := CivilFromDays(secs / 86400);
      var t := secs % 86400;
      ReadTimestamp(UtcTimestamp(secs)) ==
        Some(Fields(date.year, date.month, date.day, t / 3600, t % 3600 / 60, t % 60))
  {
    var date := CivilFromDays(secs / 86400);
    var t := secs % 86400;
    CivilFromDaysValid(secs / 86400);
    TimeOfDay(secs);
    assert Pow10(4) == 10000 && Pow10(2) == 100;
    PadWidth(date.year, 4);
    PadWidth(date.month, 2);
    PadWidth(date.day, 2);
    PadWidth(t / 3600, 2);
    PadWidth(t % 3600 / 60, 2);
    PadWidth(t % 60, 2);
    Layout(ZeroPad(date.year, 4), ZeroPad(date.month, 2), ZeroPad(date.day, 2),
           ZeroPad(t / 3600, 2), ZeroPad(t % 3600 / 60, 2), ZeroPad(t % 60, 2));
  }

  /** 0 is day 0 of the civil calendar's 1 January 1970. */
  lemma EpochDate()
    ensures CivilFromDays(0) == Date(1970, 1, 1)
  {
    assert 719468 / 146097 == 4 && 719468 - 4 * 146097 == 135080;
    assert YearOfEra(135080) == 369;
    assert DayOfYear(135080) == 306;
    assert MonthIndex(306) == 10 && DayOfMonth(306) == 1;
  }

  /** The epoch itself is 1970-01-01T00-00-00. */
  lemma EpochTimestamp()
    ensures UtcTimestamp(0) == "1970-01-01T00-00-00"
  {
    EpochDate();
    FormatEpoch(Date(1970, 1, 1), 0);
  }

  lemma FormatEpoch(date: Date, t: nat)
    requires date == Date(1970, 1, 1) && t == 0
    ensures Format(date, t) == "1970-01-01T00-00-00"
  {
    Pad1970();
    PadSmall(0);
    PadSmall(1);
    assert t / 3600 == 0 && t % 3600 / 60 == 0 && t % 60 == 0;
  }

  lemma Pad1970()
    ensures ZeroPad(1970, 4) == "1970"
  {
    assert NatToString(1) == "1";
    assert NatToString(19) == NatToString(1) + "9";
    assert NatToString(197) == NatToString(19) + "7";
    assert NatToString(1970) == NatToString(197) + "0";
  }

  lemma PadSmall(n: nat)
    requires n < 10
    ensures ZeroPad(n, 2) == "0" + [DigitChar(n)]
  {
    assert Zeros(1) == "0";
  }

  predicate NoUnderscore(s: string)
  {
    forall k | 0 <= k < |s| :: s[k] != '_'
  }

  lemma NoUnderscoreJoin(a: string, b: string)
    requires NoUnderscore(a) && NoUnderscore(b)
    ensures NoUnderscore(a + b)
  {
    assert forall k | |a| <= k < |a| + |b| :: (a + b)[k] == b[k - |a|];
  }

  /** No timestamp holds an underscore, which is what lets a log name be
      split at its first `_`. */
  lemma TimestampHasNoUnderscore(secs: nat)
    ensures NoUnderscore(UtcTimestamp(secs))
  {
    var date := CivilFromDays(secs / 86400);
    var t := secs % 86400;
    var y, mo, d := ZeroPad(date.year, 4), ZeroPad(date.month, 2), ZeroPad(date.day, 2);
    var h, mi, sc := ZeroPad(t / 3600, 2), ZeroPad(t % 3600 / 60, 2), ZeroPad(t % 60, 2);
    ZeroPadValue(date.year, 4);
    ZeroPadValue(date.month, 2);
    ZeroPadValue(date.day, 2);
    ZeroPadValue(t / 3600, 2);
    ZeroPadValue(t % 3600 / 60, 2);
    ZeroPadValue(t % 60, 2);
    NoUnderscoreJoin(y, "-");
    NoUnderscoreJoin(y + "-", mo);
    NoUnderscoreJoin(y + "-" + mo, "-");
    NoUnderscoreJoin(y + "-" + mo + "-", d);
    NoUnderscoreJoin(y + "-" + mo + "-" + d, "T");
    NoUnderscoreJoin(y + "-" + mo + "-" + d + "T", h);
    NoUnderscoreJoin(y + "-" + mo + "-" + d + "T" + h, "-");
    NoUnderscoreJoin(y + "-" + mo + "-" + d + "T" + h + "-", mi);
    NoUnderscoreJoin(y + "-" + mo + "-" + d + "T" + h + "-" + mi, "-");
    NoUnderscoreJoin(y + "-" + mo + "-" + d + "T" + h + "-" + mi + "-", sc);
  }

  // ---------------------------------------------------------------------
  // ScriptLogger names
  // ---------------------------------------------------------------------

  const RunningSuffix := "_running.log"

  /** The name a script log is created under: `<ts>_<script>_running.log`. */
  function RunningName(ts: string, script: string): (r: string)
    ensures StartsWith(r, ts + "_") && EndsWith(r, RunningSuffix)
  {
    ts + "_" + script + RunningSuffix
  }

  function StatusText(success: bool): string
  {
    if success then "ok" else "failed"
  }

  /** `finish`: every `_running.log` in the name replaced by `_ok.log` or
      `_failed.log`. */
  function FinishedName(name: string, success: bool): (r: string)
    ensures !Contains(name, RunningSuffix) ==> r == name
  {
    ReplaceAllAbsent(name, RunningSuffix, "_" + StatusText(success) + ".log");
    ReplaceAll(name, RunningSuffix, "_" + StatusText(success) + ".log")
  }

  /** When the running marker occurs only at the end, finishing swaps
      that marker for the status and keeps the rest of the name. */
  lemma FinishRenames(ts: string, script: string, success: bool)
    requires !Contains(ts + "_" + script, RunningSuffix)
    ensures FinishedName(RunningName(ts, script), success) == ts + "_" + script + "_" + StatusText(success) + ".log"
  {
    ReplaceAllAtEnd(ts + "_" + script, RunningSuffix, "_" + StatusText(success) + ".log");
    assert ts + "_" + script + ("_" + StatusText(success) + ".log") == ts + "_" + script + "_" + StatusText(success) + ".log";
  }

  // ---------------------------------------------------------------------
  // rotate_logs
  // ---------------------------------------------------------------------

  /** The names `rotate_logs` considers for `script`: finished logs of it. */
  predicate Rotatable(name: string, script: string)
  {
    Contains(name, "_" + script + "_") && (EndsWith(name, "_ok.log") || EndsWith(name, "_failed.log"))
  }

  /** The rotatable names of a listing, in listing order. */
  function Matching(listing: seq<string>, script: string): (r: seq<string>)
    ensures forall x :: x in r <==> x in listing && Rotatable(x, script)
    ensures |r| <= |listing|
  {
    if |listing| == 0 then []
    else
      var rest := Matching(listing[..|listing| - 1], script);
      var x := listing[|listing| - 1];
      assert listing == listing[..|listing| - 1] + [x];
      if Rotatable(x, script) then rest + [x] else rest
  }

  /** The matching names in name order: timestamps first, so oldest first. */
  function RotationOrder(listing: seq<string>, script: string): seq<string>
  {
    Sorting.Sort(ByName(), Matching(listing, script))
  }

  /** The names `rotate_logs` removes: all but the `keep` greatest. */
  function Doomed(listing: seq<string>, script: string, keep: nat): (r: seq<string>)
    ensures var n := |Matching(listing, script)|; |r| == if n > keep then n - keep else 0
  {
    var m := RotationOrder(listing, script);
    if |m| > keep then m[..|m| - keep] else []
  }

  /** The matching names that survive. */
  function Kept(listing: seq<string>, script: string, keep: nat): seq<string>
  {
    var m := RotationOrder(listing, script);
    if |m| > keep then m[|m| - keep..] else m
  }

  /** A log that is still running is never rotatable: its name ends in
      `_running.log`, which ends in neither `_ok.log` nor `_failed.log`. */
  lemma RunningNeverRotated(name: string, script: string)
    requires EndsWith(name, RunningSuffix)
    ensures !Rotatable(name, script)
  {
    assert name[|name| - 7..] == RunningSuffix[5..];
    assert name[|name| - 11..] == RunningSuffix[1..];
  }

  /** Rotation removes only finished logs of the script, and keeps the
      `keep` newest of them: every removed name sorts before every kept
      one, together they are exactly the matching names, and nothing is
      removed while there are at most `keep`. */
  lemma RotationKeepsNewest(listing: seq<string>, script: string, keep: nat)
    ensures var m := Matching(listing, script);
      var doomed := Doomed(listing, script, keep);
      var kept := Kept(listing, script, keep);
      multiset(doomed + kept) == multiset(m) &&
      |kept| == (if |m| > keep then keep else |m|) &&
      (|m| <= keep ==> doomed == []) &&
      (forall i, j | 0 <= i < |doomed| && 0 <= j < |kept| :: LexLe(doomed[i], kept[j])) &&
      (forall x | x in doomed :: x in listing && Rotatable(x, script) && !EndsWith(x, RunningSuffix))
  {
    RotationPartitions(listing, script, keep);
    RotationOrdered(listing, script, keep);
    DoomedAreFinished(listing, script, keep);
  }

  /** The removed and the kept names are the matching names, split. */
  lemma RotationPartitions(listing: seq<string>, script: string, keep: nat)
    ensures var m := Matching(listing, script);
      var doomed := Doomed(listing, script, keep);
      var kept := Kept(listing, script, keep);
      doomed + kept == RotationOrder(listing, script) &&
      multiset(doomed + kept) == multiset(m) &&
      |kept| == (if |m| > keep then keep else |m|) &&
      (|m| <= keep ==> doomed == [])
  {
    var m := Matching(listing, script);
    var sorted := RotationOrder(listing, script);
    assert multiset(sorted) == multiset(m) && |sorted| == |m|;
    var doomed := Doomed(listing, script, keep);
    var kept := Kept(listing, script, keep);
    if |sorted| > keep {
      assert doomed + kept == sorted[..|sorted| - keep] + sorted[|sorted| - keep..];
    } else {
      assert doomed + kept == [] + sorted;
    }
  }

  /** Every removed name sorts before every kept one. */
  lemma RotationOrdered(listing: seq<string>, script: string, keep: nat)
    ensures var doomed := Doomed(listing, script, keep);
      var kept := Kept(listing, script, keep);
      forall i, j | 0 <= i < |doomed| && 0 <= j < |kept| :: LexLe(doomed[i], kept[j])
  {
    var sorted := RotationOrder(listing, script);
    ByNameTotal();
    Sorting.SortSorted(ByName(), Matching(listing, script));
    RotationPartitions(listing, script, keep);
    SplitOrdered(sorted, Doomed(listing, script, keep), Kept(listing, script, keep));
  }

  /** A sorted list cut in two: everything in the front part sorts before
      everything in the back part. */
  lemma SplitOrdered(sorted: seq<string>, front: seq<string>, back: seq<string>)
    requires Sorting.Sorted(ByName(), sorted) && front + back == sorted
    ensures forall i, j | 0 <= i < |front| && 0 <= j < |back| :: LexLe(front[i], back[j])
  {
    forall i, j | 0 <= i < |front| && 0 <= j < |back| ensures LexLe(front[i], back[j]) {
      assert front[i] == sorted[i] && back[j] == sorted[|front| + j];
      assert ByName()(sorted[i], sorted[|front| + j]);
    }
  }

  /** Only finished logs of the script, from the listing, are removed. */
  lemma DoomedAreFinished(listing: seq<string>, script: string, keep: nat)
    ensures forall x | x in Doomed(listing, script, keep) ::
      x in listing && Rotatable(x, script) && !EndsWith(x, RunningSuffix)
  {
    var m := Matching(listing, script);
    var sorted := RotationOrder(listing, script);
    var doomed := Doomed(listing, script, keep);
    forall x | x in doomed ensures x in listing && Rotatable(x, script) && !EndsWith(x, RunningSuffix) {
      assert x in sorted;
      assert x in multiset(sorted);
      assert x in m;
      if EndsWith(x, RunningSuffix) {
        RunningNeverRotated(x, script);
      }
    }
  }

  // ---------------------------------------------------------------------
  // list_script_logs and latest_script_log
  // ---------------------------------------------------------------------

  /** One finished script log: its file name and the three parts of it. */
  datatype LogEntry = LogEntry(name: string, timestamp: string, script: string, status: string)

  /** A stem cut at its first and its last `_`, when those differ. */
  function SplitStem(stem: string): (r: Option<(string, string, string)>)
    ensures r.Some? ==> stem == r.value.0 + "_" + r.value.1 + "_" + r.value.2
    ensures r.Some? ==> NoUnderscore(r.value.0)
    ensures r.Some? ==> NoUnderscore(r.value.2)
    ensures r.None? ==> forall i, j | 0 <= i < j < |stem| :: !(stem[i] == '_' && stem[j] == '_')
  {
    match FirstIndexOf(stem, '_')
    case None => None
    case Some(first) =>
      match LastIndexOf(stem, '_')
      case None => None
      case Some(last) =>
        if first == last then None
        else
          assert stem == stem[..first] + "_" + stem[first + 1..last] + "_" + stem[last + 1..];
          Some((stem[..first], stem[first + 1..last], stem[last + 1..]))
  }

  /** The parse of one file name: running logs, names without `.log` and
      stems with a single underscore are skipped; otherwise the timestamp
      is before the first `_`, the status after the last, the script in
      between. */
  function ParseLogName(name: string): (r: Option<LogEntry>)
    ensures r.Some? ==> r.value.name == name && !EndsWith(name, RunningSuffix) && EndsWith(name, ".log")
    ensures r.Some? ==> name == r.value.timestamp + "_" + r.value.script + "_" + r.value.status + ".log"
  {
    if EndsWith(name, RunningSuffix) || !EndsWith(name, ".log") then None
    else
      var stem := name[..|name| - 4];
      assert name == stem + ".log";
      match SplitStem(stem)
      case None => None
      case Some(p) => Some(LogEntry(name, p.0, p.1, p.2))
  }

  /** A finished log's name parses back into the timestamp, script and
      status it was made from, whatever underscores the script name
      holds, because neither the timestamp nor the status holds one. */
  lemma FinishedNameParses(secs: nat, script: string, success: bool)
    requires !Contains(UtcTimestamp(secs) + "_" + script, RunningSuffix)
    ensures var ts := UtcTimestamp(secs);
      var name := FinishedName(RunningName(ts, script), success);
      ParseLogName(name) == Some(LogEntry(name, ts, script, StatusText(success)))
  {
    var ts := UtcTimestamp(secs);
    TimestampHasNoUnderscore(secs);
    FinishRenames(ts, script, success);
    ParseRoundTrip(ts, script, StatusText(success));
  }

  lemma ParseRoundTrip(ts: string, script: string, status: string)
    requires NoUnderscore(ts)
    requires status == "ok" || status == "failed"
    ensures var name := ts + "_" + script + "_" + status + ".log";
      ParseLogName(name) == Some(LogEntry(name, ts, script, status))
  {
    var stem := ts + "_" + script + "_" + status;
    var name := stem + ".log";
    FinishedSuffix(stem, status);
    assert name[..|name| - 4] == stem;
    StemSplits(ts, script, status);
  }

  /** A name ending in the status and `.log` is not a running log. */
  lemma FinishedSuffix(stem: string, status: string)
    requires status == "ok" || status == "failed"
    requires EndsWith(stem, status)
    ensures var name := stem + ".log";
      EndsWith(name, ".log") && !EndsWith(name, RunningSuffix)
  {
    var name := stem + ".log";
    assert name[|name| - 4..] == ".log";
    assert name[|name| - 5] == stem[|stem| - 1] == status[|status| - 1] != 'g';
    if |name| >= |RunningSuffix| {
      assert name[|name| - |RunningSuffix|..][7] == name[|name| - 5];
    }
  }

  lemma StemSplits(ts: string, script: string, status: string)
    requires NoUnderscore(ts)
    requires NoUnderscore(status)
    ensures SplitStem(ts + "_" + script + "_" + status) == Some((ts, script, status))
  {
    var stem := ts + "_" + script + "_" + status;
    var first := |ts|;
    var last := |ts| + 1 + |script|;
    StemUnderscores(ts, script, status);
    SplitStemAt(stem, first, last);
    ThreeParts(ts, script, status);
  }

  /** The first `_` of `ts_script_status` follows the timestamp and the
      last precedes the status. */
  lemma StemUnderscores(ts: string, script: string, status: string)
    requires NoUnderscore(ts) && NoUnderscore(status)
    ensures var stem := ts + "_" + script + "_" + status;
      FirstIndexOf(stem, '_') == Some(|ts|) && LastIndexOf(stem, '_') == Some(|ts| + 1 + |script|)
  {
    var rest := script + "_" + status;
    FirstUnderscore(ts, rest);
    assert ts + "_" + rest == ts + "_" + script + "_" + status;
    LastUnderscore(ts + "_" + script, status);
  }

  /** A stem whose first and last `_` differ splits at them. */
  lemma SplitStemAt(stem: string, first: nat, last: nat)
    requires FirstIndexOf(stem, '_') == Some(first) && LastIndexOf(stem, '_') == Some(last)
    requires first != last
    ensures SplitStem(stem) == Some((stem[..first], stem[first + 1..last], stem[last + 1..]))
  {
  }

  /** The three parts of `a_b_c`, by position. */
  lemma ThreeParts(a: string, b: string, c: string)
    ensures var t := a + "_" + b + "_" + c;
      t[..|a|] == a && t[|a| + 1..|a| + 1 + |b|] == b && t[|a| + 1 + |b| + 1..] == c
  {
  }

  lemma {:induction false} FirstUnderscore(a: string, b: string)
    requires NoUnderscore(a)
    ensures FirstIndexOf(a + "_" + b, '_') == Some(|a|)
    decreases |a|
  {
    if |a| > 0 {
      FirstUnderscore(a[1..], b);
      assert (a + "_" + b)[1..] == a[1..] + "_" + b;
    }
  }

  lemma {:induction false} LastUnderscore(a: string, b: string)
    requires NoUnderscore(b)
    ensures LastIndexOf(a + "_" + b, '_') == Some(|a|)
    decreases |b|
  {
    var t := a + "_" + b;
    if |b| > 0 {
      LastUnderscore(a, b[..|b| - 1]);
      assert t[..|t| - 1] == a + "_" + b[..|b| - 1];
      assert t[|t| - 1] == b[|b| - 1] != '_';
    } else {
      assert t[|t| - 1] == '_';
    }
  }

  /** The parsed entries of a listing, in listing order. */
  function ParseAll(listing: seq<string>): (r: seq<LogEntry>)
    ensures forall e :: e in r <==> exists i | 0 <= i < |listing| :: ParseLogName(listing[i]) == Some(e)
  {
    if |listing| == 0 then []
    else
      var rest := ParseAll(listing[..|listing| - 1]);
      var last := listing[|listing| - 1];
      assert forall i | 0 <= i < |listing| - 1 :: listing[..|listing| - 1][i] == listing[i];
      match ParseLogName(last)
      case None => rest
      case Some(e) => rest + [e]
  }

  function ByTimestamp(): (LogEntry, LogEntry) -> bool
  {
    (a: LogEntry, b: LogEntry) => LexLe(a.timestamp, b.timestamp)
  }

  lemma ByTimestampTotal()
    ensures Sorting.TotalPreorder(ByTimestamp())
  {
    forall a: LogEntry, b: LogEntry ensures LexLe(a.timestamp, b.timestamp) || LexLe(b.timestamp, a.timestamp) {
      LexLeTotal(a.timestamp, b.timestamp);
    }
    forall a: LogEntry, b: LogEntry, c: LogEntry | LexLe(a.timestamp, b.timestamp) && LexLe(b.timestamp, c.timestamp)
      ensures LexLe(a.timestamp, c.timestamp)
    {
      LexLeTransitive(a.timestamp, b.timestamp, c.timestamp);
    }
  }

  /** `list_script_logs` over the names `read_dir` produced, in its order:
      the parsed entries, stably sorted by timestamp. */
  function ListScriptLogs(listing: seq<string>): (r: seq<LogEntry>)
    ensures forall e | e in r :: e.name in listing && ParseLogName(e.name) == Some(e)
  {
    var parsed := ParseAll(listing);
    var sorted := Sorting.Sort(ByTimestamp(), parsed);
    assert forall e | e in sorted :: e in parsed by {
      forall e | e in sorted ensures e in parsed {
        assert e in multiset(sorted);
      }
    }
    sorted
  }

  /** The listing holds exactly the parsable logs, oldest first. */
  lemma ListScriptLogsSorted(listing: seq<string>)
    ensures var logs := ListScriptLogs(listing);
      Sorting.Sorted(ByTimestamp(), logs) &&
      forall e :: e in logs <==> exists i | 0 <= i < |listing| :: ParseLogName(listing[i]) == Some(e)
  {
    var parsed := ParseAll(listing);
    ByTimestampTotal();
    Sorting.SortSorted(ByTimestamp(), parsed);
    var logs := ListScriptLogs(listing);
    forall e ensures e in logs <==> e in parsed {
      assert e in logs <==> e in multiset(logs);
      assert e in parsed <==> e in multiset(parsed);
    }
  }

  predicate Wanted(e: LogEntry, failedOnly: bool)
  {
    !failedOnly || e.status == "failed"
  }

  /** The name of the last wanted entry. */
  function LastWanted(logs: seq<LogEntry>, failedOnly: bool): (r: Option<string>)
    ensures r.Some? ==> exists i | 0 <= i < |logs| ::
      (logs[i].name == r.value && Wanted(logs[i], failedOnly) && forall j | i < j < |logs| :: !Wanted(logs[j], failedOnly))
    ensures r.None? ==> forall i | 0 <= i < |logs| :: !Wanted(logs[i], failedOnly)
  {
    if |logs| == 0 then None
    else if Wanted(logs[|logs| - 1], failedOnly) then Some(logs[|logs| - 1].name)
    else
      var r := LastWanted(logs[..|logs| - 1], failedOnly);
      assert forall i | 0 <= i < |logs| - 1 :: logs[..|logs| - 1][i] == logs[i];
      r
  }

  /** A parsed failed log's name ends in `_failed.log`. */
  lemma FailedLogName(e: LogEntry)
    requires e.name == e.timestamp + "_" + e.script + "_" + e.status + ".log" && e.status == "failed"
    ensures EndsWith(e.name, "_failed.log")
  {
    assert e.name == (e.timestamp + "_" + e.script) + "_failed.log";
  }

  /** `latest_script_log`: the newest log, or the newest failed one. */
  function LatestScriptLog(listing: seq<string>, failedOnly: bool): (r: Option<string>)
    ensures r.Some? ==> r.value in listing && !EndsWith(r.value, RunningSuffix)
    ensures failedOnly && r.Some? ==> EndsWith(r.value, "_failed.log")
  {
    var logs := ListScriptLogs(listing);
    var r := LastWanted(logs, failedOnly);
    assert r.Some? ==>
      r.value in listing && !EndsWith(r.value, RunningSuffix) && (failedOnly ==> EndsWith(r.value, "_failed.log"))
    by {
      if r.Some? {
        var i :| 0 <= i < |logs| && logs[i].name == r.value && Wanted(logs[i], failedOnly);
        assert logs[i] in logs;
        if failedOnly {
          FailedLogName(logs[i]);
        }
      }
    }
    r
  }

  /** The log returned is a wanted one whose timestamp is not older than
      any other wanted log's; there is none only when no log is wanted. */
  lemma LatestIsNewest(listing: seq<string>, failedOnly: bool)
    ensures var r := LatestScriptLog(listing, failedOnly);
      (r.Some? ==> exists e | e in ListScriptLogs(listing) ::
         (e.name == r.value && Wanted(e, failedOnly) &&
          forall f | f in ListScriptLogs(listing) && Wanted(f, failedOnly) :: LexLe(f.timestamp, e.timestamp))) &&
      (r.None? ==> forall f | f in ListScriptLogs(listing) :: !Wanted(f, failedOnly))
  {
    ByTimestampTotal();
    Sorting.SortSorted(ByTimestamp(), ParseAll(listing));
    LastWantedIsNewest(ListScriptLogs(listing), failedOnly);
  }

  /** In a list sorted by timestamp, the last wanted entry is a newest one. */
  lemma LastWantedIsNewest(logs: seq<LogEntry>, failedOnly: bool)
    requires Sorting.Sorted(ByTimestamp(), logs)
    ensures var r := LastWanted(logs, failedOnly);
      (r.Some? ==> exists e | e in logs ::
         (e.name == r.value && Wanted(e, failedOnly) &&
          forall f | f in logs && Wanted(f, failedOnly) :: LexLe(f.timestamp, e.timestamp))) &&
      (r.None? ==> forall f | f in logs :: !Wanted(f, failedOnly))
  {
    var r := LastWanted(logs, failedOnly);
    if r.Some? {
      var i :| 0 <= i < |logs| && logs[i].name == r.value && Wanted(logs[i], failedOnly) &&
        forall j | i < j < |logs| :: !Wanted(logs[j], failedOnly);
      forall f | f in logs && Wanted(f, failedOnly) ensures LexLe(f.timestamp, logs[i].timestamp) {
        var j :| 0 <= j < |logs| && logs[j] == f;
        if j != i {
          assert j < i;
        } else {
          LexLeTotal(f.timestamp, f.timestamp);
        }
      }
    }
  }

  // ---------------------------------------------------------------------
  // The logs directory
  // ---------------------------------------------------------------------

  /** A logs directory, as the set of file names in it. */
  class LogDir {
    var names: set<string>

    constructor(names0: set<string>)
      ensures names == names0
    {
      names := names0;
    }

    /** `ScriptLogger::new` at clock reading `secs`: creates (or empties)
        the running log and returns its name. `dirOk` and `createOk` say
        whether creating the directory and the file succeed; on failure
        there is no logger, and the script runs without a log. */
    method CreateScriptLog(secs: nat, script: string, dirOk: bool, createOk: bool) returns (name: Option<string>)
      modifies this
      ensures dirOk && createOk ==> name == Some(RunningName(UtcTimestamp(secs), script))
      ensures dirOk && createOk ==> names == old(names) + {name.value}
      ensures !(dirOk && createOk) ==> name == None && names == old(names)
    {
      if !dirOk || !createOk {
        return None;
      }
      var created := RunningName(UtcTimestamp(secs), script);
      names := names + {created};
      name := Some(created);
    }

    /** `finish`: renames the log to its finished name; a failed rename
        (the log is gone) changes nothing. */
    method Finish(name: string, success: bool)
      modifies this
      ensures name in old(names) ==> names == old(names) - {name} + {FinishedName(name, success)}
      ensures name !in old(names) ==> names == old(names)
    {
      if name in names {
        names := names - {name} + {FinishedName(name, success)};
      }
    }

    /** `rotate_logs`: `listing` is what `read_dir` returned, None when
        the directory could not be read. Removes the doomed names one by
        one; `removeOk` says whether a removal succeeds, and a failed
        removal is ignored. */
    method RotateLogs(listing: Option<seq<string>>, script: string, keep: nat, removeOk: string -> bool)
      modifies this
      ensures listing.None? ==> names == old(names)
      ensures listing.Some? ==>
        names == old(names) - set x | x in Doomed(listing.value, script, keep) && removeOk(x)
    {
      if listing.None? {
        return;
      }
      var doomed := Doomed(listing.value, script, keep);
      var i := 0;
      while i < |doomed|
        invariant 0 <= i <= |doomed|
        invariant names == old(names) - set x | x in doomed[..i] && removeOk(x)
      {
        assert forall x :: x in doomed[..i + 1] <==> x in doomed[..i] || x == doomed[i];
        if removeOk(doomed[i]) {
          names := names - {doomed[i]};
        }
        i := i + 1;
      }
      assert doomed[..i] == doomed;
    }
  }
}
