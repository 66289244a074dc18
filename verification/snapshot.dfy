/** Snapshot naming in the backup command: the destination folder of a
    backup is `th-` followed by the date as strftime's `%d-%m-%Y`. */
module Snapshot {
  import opened Decimal
  import opened Options

  /** A calendar date as `datetime.now()` reports it. */
  datatype Date = Date(day: nat, month: nat, year: nat)

  /** Leap years of the proleptic Gregorian calendar `datetime` uses. */
  predicate IsLeapYear(y: nat) {
    y % 4 == 0 && (y % 100 != 0 || y % 400 == 0)
  }

  /** The number of days in month `m` (1..12) of year `y`. */
  function DaysInMonth(m: nat, y: nat): nat {
    if m == 2 then (if IsLeapYear(y) then 29 else 28)
    else if m == 4 || m == 6 || m == 9 || m == 11 then 30
    else 31
  }

  /** The dates Python's `datetime` can hold: years 1 to 9999, months 1 to
      12, and days within the month's length. */
  predicate ValidDate(d: Date) {
    1 <= d.month <= 12 && 1 <= d.year <= 9999 && 1 <= d.day <= DaysInMonth(d.month, d.year)
  }

  /** Every snapshot folder name starts with this prefix. */
  const SnapshotPrefix: string := "th-"

  /** The name of the snapshot folder a backup taken on `d` writes to:
      three prefix characters, then day, month and year as zero-padded
      digit fields separated by dashes. */
  function SnapshotName(d: Date): (s: string)
    requires ValidDate(d)
    ensures |s| == 13
    ensures s[..3] == SnapshotPrefix && s[5] == '-' && s[8] == '-'
    ensures AllDigits(s[3..5]) && AllDigits(s[6..8]) && AllDigits(s[9..])
    ensures Value(s[3..5]) == d.day && Value(s[6..8]) == d.month && Value(s[9..]) == d.year
    ensures ParseSnapshotName(s) == Some(d)
  {
    var s := SnapshotPrefix + Pad2(d.day) + "-" + Pad2(d.month) + "-" + Pad4(d.year);
    assert s[3..5] == Pad2(d.day);
    assert s[6..8] == Pad2(d.month);
    assert s[9..] == Pad4(d.year);
    s
  }

  /** Reads a snapshot folder name back into its date; `None` for any name
      that is not in the `th-dd-mm-yyyy` layout or names no valid date. */
  function ParseSnapshotName(s: string): (r: Option<Date>)
    ensures r.Some? ==> ValidDate(r.value)
  {
    if |s| == 13 && s[..3] == SnapshotPrefix && s[5] == '-' && s[8] == '-'
       && AllDigits(s[3..5]) && AllDigits(s[6..8]) && AllDigits(s[9..])
    then
      var d := Date(Value(s[3..5]), Value(s[6..8]), Value(s[9..]));
      if ValidDate(d) then Some(d) else None
    else None
  }

  /** The converse round trip: a name that parses is exactly the name a
      backup on that date produces, so names and dates are in bijection. */
  lemma ParsedNameIsCanonical(s: string)
    requires ParseSnapshotName(s).Some?
    ensures SnapshotName(ParseSnapshotName(s).value) == s
  {
    var d := ParseSnapshotName(s).value;
    var n := SnapshotName(d);
    Pad2Value(s[3..5]);
    Pad2Value(s[6..8]);
    Pad4Value(s[9..]);
    Pad2Value(n[3..5]);
    Pad2Value(n[6..8]);
    Pad4Value(n[9..]);
    assert s == s[..3] + s[3..5] + [s[5]] + s[6..8] + [s[8]] + s[9..];
    assert n == n[..3] + n[3..5] + [n[5]] + n[6..8] + [n[8]] + n[9..];
  }

  /** Two backups write to the same folder exactly when they are taken on
      the same date. */
  lemma SnapshotNameInjective(d1: Date, d2: Date)
    requires ValidDate(d1) && ValidDate(d2)
    ensures SnapshotName(d1) == SnapshotName(d2) <==> d1 == d2
  {
  }

  /** A name with a day its month does not have names no date. */
  lemma NoThirtyFirstOfFebruary()
    ensures ParseSnapshotName("th-31-02-2020") == None
  {
    var s := "th-31-02-2020";
    Value2(s[3..5]);
    Value2(s[6..8]);
  }

  /** 29 February is a date in the leap year 2020 ... */
  lemma LeapDayExample()
    ensures ParseSnapshotName("th-29-02-2020") == Some(Date(29, 2, 2020))
  {
    assert SnapshotName(Date(29, 2, 2020)) == "th-29-02-2020" by {
      assert Pad2(29) == "29" && Pad2(2) == "02";
      assert Pad4(2020) == "2020";
    }
  }

  /** ... but not in 2021. */
  lemma NoLeapDayExample()
    ensures ParseSnapshotName("th-29-02-2021") == None
  {
    var s := "th-29-02-2021";
    Value2(s[3..5]);
    Value2(s[6..8]);
    Value4(s[9..]);
  }

  /** The example of a backup taken on 1 February 2021. */
  lemma SnapshotNameExample()
    ensures SnapshotName(Date(1, 2, 2021)) == "th-01-02-2021"
  {
    assert Pad2(1) == "01" && Pad2(2) == "02";
    assert Pad4(2021) == "2021";
  }
}
