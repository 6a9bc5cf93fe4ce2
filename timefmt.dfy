/** `format_time`: a playback position in seconds shown as `MM:SS`. */
module TimeFormat {
  import opened Strings

  /** `int(seconds // 60)` for a non-negative number of seconds. */
  function Minutes(seconds: real): (m: nat)
    requires seconds >= 0.0
    ensures m == seconds.Floor / 60
  {
    var m := (seconds / 60.0).Floor;
    assert 60 * m <= seconds.Floor < 60 * m + 60 by {
      assert m as real <= seconds / 60.0 < m as real + 1.0;
    }
    m
  }

  /** `int(seconds % 60)` for a non-negative number of seconds: Python's float
      remainder has the sign of the divisor, so it lies in [0, 60). */
  function SecondsField(seconds: real): (s: nat)
    requires seconds >= 0.0
    ensures s < 60
    ensures s == seconds.Floor % 60
  {
    var rem := seconds - 60.0 * (Minutes(seconds) as real);
    assert rem.Floor == seconds.Floor - 60 * Minutes(seconds);
    rem.Floor
  }

  /** `format_time`: both fields zero-padded to at least two digits, separated by `:`. */
  function FormatTime(seconds: real): (r: string)
    requires seconds >= 0.0
    ensures |r| >= 5 && r[|r| - 3] == ':'
  {
    Pad2(Minutes(seconds)) + ":" + Pad2(SecondsField(seconds))
  }

  /** Reads an `MM:SS` text back into a number of seconds. */
  function ParseClock(t: string): Option<nat> {
    var parts := SplitOn(t, ':');
    if |parts| == 2 && AllDigits(parts[0]) && AllDigits(parts[1])
    then Some(ParseNat(parts[0]) * 60 + ParseNat(parts[1]))
    else None
  }

  /** The fields are the whole minutes and the remaining seconds: minutes * 60 +
      seconds gives back the whole number of seconds, and seconds is in 0..59. */
  lemma FieldsRecompose(seconds: real)
    requires seconds >= 0.0
    ensures Minutes(seconds) * 60 + SecondsField(seconds) == seconds.Floor
    ensures 0 <= SecondsField(seconds) <= 59
  {
  }

  /** Reading the text back gives the whole number of seconds that was formatted. */
  lemma ParseFormatRoundTrip(seconds: real)
    requires seconds >= 0.0
    ensures ParseClock(FormatTime(seconds)) == Some(seconds.Floor)
  {
    var mm := Pad2(Minutes(seconds));
    var ss := Pad2(SecondsField(seconds));
    assert ':' !in mm by { assert forall k :: 0 <= k < |mm| ==> IsDigit(mm[k]); }
    assert ':' !in ss by { assert forall k :: 0 <= k < |ss| ==> IsDigit(ss[k]); }
    SplitOnPair(mm, ':', ss);
    FieldsRecompose(seconds);
  }

  /** Under 100 minutes (6000 seconds) the text is exactly `MM:SS`, five characters. */
  lemma FormatLength(seconds: real)
    requires 0.0 <= seconds < 6000.0
    ensures |FormatTime(seconds)| == 5
    ensures FormatTime(seconds)[2] == ':'
  {
  }

  /** Only the whole seconds matter: fractions are dropped, not rounded. */
  lemma FormatIgnoresFraction(seconds: real)
    requires seconds >= 0.0
    ensures FormatTime(seconds) == FormatTime(seconds.Floor as real)
  {
  }
}
