/** The progress logger: one line `<timestamp>: <message>` appended per
    call to a log file that is opened in append mode and never truncated. */
module Logging {
  import opened Banks

  /** The message catalog, keyed by the step that logs it. */
  const LogMessages: map<string, string> := map[
    "Declaring known values" := "Preliminaries complete. Initiating ETL process",
    "Call extract() function" := "Data extraction complete. Initiating Transformation process",
    "Call transform() function " := "Data transformation complete. Initiating Loading process",
    "Call load_to_csv()" := "Data saved to CSV file",
    "Initiate SQLite3 connection" := "SQL Connection initiated",
    "Call load_to_db()" := "Data loaded to Database as a table, Executing queries",
    "Call run_query()" := "Process Complete",
    "Close SQLite3 connection" := "Server Connection closed"
  ]

  /** A local clock reading. */
  datatype DateTime = DateTime(year: int, month: int, day: int, hour: int, minute: int, second: int)

  /** The readings the logger formats: four-digit years and in-range fields. */
  predicate ValidDateTime(t: DateTime)
  {
    1000 <= t.year <= 9999 && 1 <= t.month <= 12 && 1 <= t.day <= 31 &&
    0 <= t.hour < 24 && 0 <= t.minute < 60 && 0 <= t.second < 60
  }

  predicate IsDigit(c: char)
  {
    '0' <= c <= '9'
  }

  function DigitChar(d: int): (c: char)
    requires 0 <= d < 10
    ensures IsDigit(c) && c as int - '0' as int == d
  {
    ('0' as int + d) as char
  }

  function DigitValue(c: char): (d: int)
    requires IsDigit(c)
    ensures 0 <= d < 10 && DigitChar(d) == c
  {
    c as int - '0' as int
  }

  /** n in exactly `width` decimal digits, padded with leading zeros. */
  function Padded(n: nat, width: nat): (s: string)
    ensures |s| == width
    ensures forall i :: 0 <= i < width ==> IsDigit(s[i])
  {
    if width == 0 then [] else Padded(n / 10, width - 1) + [DigitChar(n % 10)]
  }

  /** The value of a string of decimal digits. */
  function Number(s: string): (n: nat)
    requires forall i :: 0 <= i < |s| ==> IsDigit(s[i])
  {
    if s == [] then 0 else 10 * Number(s[..|s| - 1]) + DigitValue(s[|s| - 1])
  }

  function Pow10(width: nat): (p: nat)
    ensures p >= 1
  {
    if width == 0 then 1 else 10 * Pow10(width - 1)
  }

  /** Reading back a padded number gives the number, when it fits the width. */
  lemma {:induction false} NumberPadded(n: nat, width: nat)
    requires n < Pow10(width)
    ensures Number(Padded(n, width)) == n
  {
    if width > 0 {
      var s := Padded(n, width);
      assert s[..width - 1] == Padded(n / 10, width - 1);
      NumberPadded(n / 10, width - 1);
    }
  }

  /** strftime("%Y-%m-%d %H:%M:%S") of a reading. */
  function FormatTimestamp(t: DateTime): (s: string)
    requires ValidDateTime(t)
    ensures |s| == 19
    ensures s[4] == '-' && s[7] == '-' && s[10] == ' ' && s[13] == ':' && s[16] == ':'
  {
    Padded(t.year, 4) + "-" + Padded(t.month, 2) + "-" + Padded(t.day, 2) + " " +
    Padded(t.hour, 2) + ":" + Padded(t.minute, 2) + ":" + Padded(t.second, 2)
  }

  predicate DigitsAt(s: string, lo: nat, hi: nat)
  {
    lo <= hi <= |s| && forall i :: lo <= i < hi ==> IsDigit(s[i])
  }

  /** Reads a `YYYY-MM-DD HH:MM:SS` timestamp back into its fields. */
  function ParseTimestamp(s: string): Option<DateTime>
  {
    if |s| == 19 && s[4] == '-' && s[7] == '-' && s[10] == ' ' && s[13] == ':' && s[16] == ':' &&
       DigitsAt(s, 0, 4) && DigitsAt(s, 5, 7) && DigitsAt(s, 8, 10) &&
       DigitsAt(s, 11, 13) && DigitsAt(s, 14, 16) && DigitsAt(s, 17, 19)
    then Some(DateTime(Number(s[0..4]), Number(s[5..7]), Number(s[8..10]),
                       Number(s[11..13]), Number(s[14..16]), Number(s[17..19])))
    else None
  }

  /** A formatted timestamp reads back as the reading it came from. */
  lemma TimestampRoundTrip(t: DateTime)
    requires ValidDateTime(t)
    ensures ParseTimestamp(FormatTimestamp(t)) == Some(t)
  {
    var s := FormatTimestamp(t);
    assert s[0..4] == Padded(t.year, 4);
    assert s[5..7] == Padded(t.month, 2);
    assert s[8..10] == Padded(t.day, 2);
    assert s[11..13] == Padded(t.hour, 2);
    assert s[14..16] == Padded(t.minute, 2);
    assert s[17..19] == Padded(t.second, 2);
    assert Pow10(2) == 100 && Pow10(4) == 10000;
    NumberPadded(t.year, 4);
    NumberPadded(t.month, 2);
    NumberPadded(t.day, 2);
    NumberPadded(t.hour, 2);
    NumberPadded(t.minute, 2);
    NumberPadded(t.second, 2);
  }

  /** One log line: f"{time_stamp}: {message}\n". */
  function Entry(timestamp: string, message: string): string
  {
    timestamp + ": " + message + "\n"
  }

  /** Splits a log line of a 19-character timestamp into timestamp and message. */
  function ParseEntry(line: string): Option<(string, string)>
  {
    if |line| >= 22 && line[19..21] == ": " && line[|line| - 1] == '\n'
    then Some((line[..19], line[21..|line| - 1]))
    else None
  }

  /** A line written for a formatted timestamp splits back into its parts. */
  lemma EntryRoundTrip(t: DateTime, message: string)
    requires ValidDateTime(t)
    ensures ParseEntry(Entry(FormatTimestamp(t), message)) == Some((FormatTimestamp(t), message))
  {
    var ts := FormatTimestamp(t);
    var line := Entry(ts, message);
    assert line[..19] == ts;
    assert line[19..21] == ": ";
    assert line[21..|line| - 1] == message;
  }

  /** The text of a sequence of lines written one after the other. */
  function Concat(lines: seq<string>): string
  {
    if lines == [] then [] else lines[0] + Concat(lines[1..])
  }

  lemma {:induction false} ConcatAppend(lines: seq<string>, line: string)
    ensures Concat(lines + [line]) == Concat(lines) + line
  {
    if lines != [] {
      assert (lines + [line])[1..] == lines[1..] + [line];
      ConcatAppend(lines[1..], line);
    }
  }

  /** Appending a line keeps the earlier text as a prefix. */
  lemma AppendKeepsPrefix(lines: seq<string>, line: string)
    ensures Concat(lines) <= Concat(lines + [line])
    ensures Concat(lines + [line])[|Concat(lines)|..] == line
  {
    ConcatAppend(lines, line);
  }

  /** The log file, as the sequence of lines appended to it. */
  class ProgressLog {
    var lines: seq<string>

    /** The file's text. */
    function Text(): string
      reads this
    {
      Concat(lines)
    }

    /** Opens the log holding what earlier runs left in it (nothing if the file is absent). */
    constructor (existing: seq<string>)
      ensures lines == existing
    {
      lines := existing;
    }

    /** log_progress(message) at clock reading `now`. */
    method Log(now: DateTime, message: string)
      requires ValidDateTime(now)
      modifies this
      ensures lines == old(lines) + [Entry(FormatTimestamp(now), message)]
      ensures old(Text()) <= Text()
      ensures Text() == old(Text()) + Entry(FormatTimestamp(now), message)
    {
      AppendKeepsPrefix(lines, Entry(FormatTimestamp(now), message));
      ConcatAppend(lines, Entry(FormatTimestamp(now), message));
      lines := lines + [Entry(FormatTimestamp(now), message)];
    }
  }
}
