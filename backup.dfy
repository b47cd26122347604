/** The backup step: the sibling path `<path>.backup_<YYYYMMDD_HHMMSS>` and the copy to it. */
module Backup {
  import opened Effects

  /** A local wall-clock reading to the second, as the clock reports it. */
  datatype Timestamp = Timestamp(year: int, month: int, day: int, hour: int, minute: int, second: int)

  /** The ranges a clock reading stays within. */
  predicate ValidTimestamp(t: Timestamp) {
    && 1 <= t.year <= 9999
    && 1 <= t.month <= 12
    && 1 <= t.day <= 31
    && 0 <= t.hour < 24
    && 0 <= t.minute < 60
    && 0 <= t.second < 60
  }

  /** The separator between the file path and the timestamp. */
  const BackupInfix: string := ".backup_"

  function Pow10(n: nat): nat {
    if n == 0 then 1 else 10 * Pow10(n - 1)
  }

  predicate IsDigit(c: char) {
    '0' <= c <= '9'
  }

  function DigitChar(d: int): (c: char)
    requires 0 <= d < 10
    ensures IsDigit(c) && c as int - '0' as int == d
  {
    ('0' as int + d) as char
  }

  /** The number a string of decimal digits denotes, most significant first. */
  function DigitsValue(s: string): int {
    if s == [] then 0 else 10 * DigitsValue(s[..|s| - 1]) + (s[|s| - 1] as int - '0' as int)
  }

  /** `n` in decimal, zero-padded on the left to exactly `width` digits. */
  function Pad(n: nat, width: nat): (r: string)
    requires n < Pow10(width)
    ensures |r| == width
    ensures forall i :: 0 <= i < |r| ==> IsDigit(r[i])
    ensures DigitsValue(r) == n
  {
    if width == 0 then ""
    else
      assert n / 10 < Pow10(width - 1);
      var r := Pad(n / 10, width - 1) + [DigitChar(n % 10)];
      assert r[..|r| - 1] == Pad(n / 10, width - 1);
      r
  }

  /** The `%Y%m%d_%H%M%S` rendering of a clock reading. */
  function Stamp(t: Timestamp): (r: string)
    requires ValidTimestamp(t)
    ensures |r| == 15
    ensures r[8] == '_'
    ensures forall i :: 0 <= i < 15 && i != 8 ==> IsDigit(r[i])
  {
    Pad(t.year, 4) + Pad(t.month, 2) + Pad(t.day, 2) + "_" + Pad(t.hour, 2) + Pad(t.minute, 2) + Pad(t.second, 2)
  }

  /** Reads the fields back out of a `YYYYMMDD_HHMMSS` string. */
  function ParseStamp(s: string): Timestamp
    requires |s| == 15
  {
    Timestamp(DigitsValue(s[0..4]), DigitsValue(s[4..6]), DigitsValue(s[6..8]),
              DigitsValue(s[9..11]), DigitsValue(s[11..13]), DigitsValue(s[13..15]))
  }

  /** The rendering loses nothing: every field can be read back. */
  lemma StampRoundTrip(t: Timestamp)
    requires ValidTimestamp(t)
    ensures ParseStamp(Stamp(t)) == t
  {
    var y, mo, d := Pad(t.year, 4), Pad(t.month, 2), Pad(t.day, 2);
    var h, mi, s := Pad(t.hour, 2), Pad(t.minute, 2), Pad(t.second, 2);
    var r := Stamp(t);
    assert r == y + mo + d + "_" + h + mi + s;
    assert r[0..4] == y;
    assert r[4..6] == mo;
    assert r[6..8] == d;
    assert r[9..11] == h;
    assert r[11..13] == mi;
    assert r[13..15] == s;
  }

  /** The backup copy's path: the file's own path, then `.backup_`, then the stamp. */
  function BackupPath(path: string, now: Timestamp): (r: string)
    requires ValidTimestamp(now)
    ensures |r| == |path| + |BackupInfix| + 15
    ensures r[..|path|] == path && r != path
    ensures r[|path|..] == BackupInfix + Stamp(now)
    ensures forall i :: |path| <= i < |r| ==> r[i] != '/'
  {
    var r := path + BackupInfix + Stamp(now);
    assert forall i :: |path| <= i < |path| + |BackupInfix| ==> r[i] == BackupInfix[i - |path|];
    assert forall i :: |path| + |BackupInfix| <= i < |r| ==> r[i] == Stamp(now)[i - |path| - |BackupInfix|];
    r
  }

  /** Splits a backup path into the original path and the clock reading. */
  function SplitBackupPath(b: string): (string, Timestamp)
    requires |b| >= |BackupInfix| + 15
  {
    (b[..|b| - |BackupInfix| - 15], ParseStamp(b[|b| - 15..]))
  }

  /** The backup path determines both the file and the second it was taken in. */
  lemma BackupPathRoundTrip(path: string, now: Timestamp)
    requires ValidTimestamp(now)
    ensures SplitBackupPath(BackupPath(path, now)) == (path, now)
  {
    var b := BackupPath(path, now);
    assert b == path + BackupInfix + Stamp(now);
    assert b[|b| - 15..] == Stamp(now);
    StampRoundTrip(now);
  }

  /** Two backups land on the same path only for the same file within the same
      second; in that case the later copy replaces the earlier one. */
  lemma BackupPathInjective(p1: string, t1: Timestamp, p2: string, t2: Timestamp)
    requires ValidTimestamp(t1) && ValidTimestamp(t2)
    ensures BackupPath(p1, t1) == BackupPath(p2, t2) <==> p1 == p2 && t1 == t2
  {
    if BackupPath(p1, t1) == BackupPath(p2, t2) {
      BackupPathRoundTrip(p1, t1);
      BackupPathRoundTrip(p2, t2);
    }
  }

  lemma StampExample()
    ensures Stamp(Timestamp(2024, 3, 7, 9, 5, 0)) == "20240307_090500"
  {
  }

  /** Copies `path` to its timestamped sibling; `copySucceeds` is whether the
      copy raises. A failed copy stops the run before anything else happens. */
  method BackupFile(path: string, now: Timestamp, copySucceeds: bool) returns (status: Status, trace: seq<Event>)
    requires ValidTimestamp(now)
    ensures trace == [Copy(path, BackupPath(path, now), copySucceeds)]
    ensures status == if copySucceeds then Ok else Fail(BackupFailed(BackupPath(path, now)))
  {
    var backupPath := BackupPath(path, now);
    trace := [Copy(path, backupPath, copySucceeds)];
    if copySucceeds {
      status := Ok;
    } else {
      status := Fail(BackupFailed(backupPath));
    }
  }
}
