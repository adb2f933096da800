/**
 * The stopwatch text `mm:ss` shown while an attempt runs: whole minutes and
 * the remaining seconds, each zero-padded to at least two digits.
 */
module Stopwatch {
  import opened Options
  import opened Numerals

  /** A number as `updateStopwatch` shows it: its decimal text, zero-padded to two digits. */
  function Padded(n: nat): (s: string)
    ensures |s| >= 2
  {
    PadStart2(NatToString(n))
  }

  /** The text `updateStopwatch` writes for `elapsed` seconds. */
  function StopwatchText(elapsed: nat): (s: string)
    ensures |s| >= 5 && s[|s| - 3] == ':'
  {
    Padded(elapsed / 60) + ":" + Padded(elapsed % 60)
  }

  /** A padded number reads back as the number, and is two characters long below 100. */
  lemma PaddedValue(n: nat)
    ensures ReadDigits(Padded(n)) == Some(n)
    ensures n < 100 ==> |Padded(n)| == 2
  {
    NatToStringValue(n);
    PadStart2Value(NatToString(n));
    if n < 100 {
      NatToStringShort(n);
    }
  }

  /** Below 100 minutes the text is exactly `mm:ss`. */
  lemma StopwatchTextWidth(elapsed: nat)
    requires elapsed < 6000
    ensures |StopwatchText(elapsed)| == 5
  {
    PaddedValue(elapsed / 60);
    PaddedValue(elapsed % 60);
  }

  /**
   * Reads a stopwatch text back into seconds: a run of minute digits, a colon,
   * and exactly two second digits below 60.
   */
  function ParseStopwatch(s: string): Option<nat> {
    if |s| >= 4 && s[|s| - 3] == ':' then ParseFields(s[..|s| - 3], s[|s| - 2..]) else None
  }

  /** The minutes and seconds fields of a stopwatch text, read as seconds. */
  function ParseFields(minutes: string, seconds: string): Option<nat> {
    match (ReadDigits(minutes), ReadDigits(seconds))
    case (Some(m), Some(sec)) => if sec < 60 then Some(m * 60 + sec) else None
    case _ => None
  }

  /** A text of the form minutes, colon, two characters splits into those fields. */
  lemma SplitFields(m: string, sec: string)
    requires |m| >= 1 && |sec| == 2
    ensures ParseStopwatch(m + ":" + sec) == ParseFields(m, sec)
  {
    var s := m + ":" + sec;
    assert s[..|s| - 3] == m;
    assert s[|s| - 2..] == sec;
  }

  /** Minute digits, a colon and two second digits below 60 read back as minutes * 60 + seconds. */
  lemma ParseJoined(minuteText: string, secondText: string, minutes: nat, seconds: nat)
    requires |minuteText| >= 1 && ReadDigits(minuteText) == Some(minutes)
    requires |secondText| == 2 && ReadDigits(secondText) == Some(seconds) && seconds < 60
    ensures ParseStopwatch(minuteText + ":" + secondText) == Some(minutes * 60 + seconds)
  {
    SplitFields(minuteText, secondText);
  }

  /** The stopwatch text determines the elapsed time: reading it back gives the seconds. */
  lemma StopwatchRoundTrip(elapsed: nat)
    ensures ParseStopwatch(StopwatchText(elapsed)) == Some(elapsed)
  {
    var minutes, seconds := elapsed / 60, elapsed % 60;
    PaddedValue(minutes);
    PaddedValue(seconds);
    ParseJoined(Padded(minutes), Padded(seconds), minutes, seconds);
    assert StopwatchText(elapsed) == Padded(minutes) + ":" + Padded(seconds);
    assert minutes * 60 + seconds == elapsed;
  }

  /** Two different times never show the same text. */
  lemma StopwatchTextInjective(a: nat, b: nat)
    requires StopwatchText(a) == StopwatchText(b)
    ensures a == b
  {
    StopwatchRoundTrip(a);
    StopwatchRoundTrip(b);
  }
}
