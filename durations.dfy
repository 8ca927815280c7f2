/**
 * The duration parser the notifier imports (`helpers.parseDuration.parse_duration`).
 * A provider duration is a string of the form "<seconds>s"; the parser turns it
 * into whole minutes. Its source file is not part of this model: the definition
 * below is an assumed contract: absent or empty input
 * reads as 0, one trailing 's' is dropped, the rest must be decimal digits,
 * and the seconds are floor-divided by 60.
 */
module Durations {
  import opened Wrappers
  import opened Decimal

  /** The numeric part of a duration is not an integer; carries the raw string. */
  datatype ParseFailure = ParseFailure(raw: string)

  /** The text left once one trailing seconds suffix 's' is dropped. */
  function SecondsPart(s: string): (digits: string)
    ensures digits <= s && |s| - 1 <= |digits|
  {
    if |s| > 0 && s[|s| - 1] == 's' then s[..|s| - 1] else s
  }

  /**
   * Absent or empty input is "no duration reported" and reads as 0 minutes;
   * otherwise the seconds are floor-divided by 60.
   */
  function ParseDuration(raw: Option<string>): (r: Result<nat, ParseFailure>)
    ensures (raw == None || raw == Some("")) ==> r == Success(0)
    ensures r.Failure? <==> raw.Some? && raw.value != "" && !IsNumeral(SecondsPart(raw.value))
    ensures r.Failure? ==> r.error == ParseFailure(raw.value)
  {
    match raw
    case None => Success(0)
    case Some(s) =>
      if s == "" then Success(0)
      else
        var digits := SecondsPart(s);
        if IsNumeral(digits) then Success(NumeralValue(digits) / 60)
        else Failure(ParseFailure(s))
  }

  /** A well-formed "<N>s" duration parses to N div 60 minutes. */
  lemma ParseDurationOfSeconds(seconds: nat)
    ensures ParseDuration(Some(NatToString(seconds) + "s")) == Success(seconds / 60)
  {
    var s := NatToString(seconds) + "s";
    assert SecondsPart(s) == NatToString(seconds);
    NumeralRoundTrip(seconds);
  }

  /** Examples of the assumed contract. */
  lemma ParseDurationExamples()
    ensures ParseDuration(Some("3600s")) == Success(60)
    ensures ParseDuration(Some("0s")) == Success(0)
    ensures ParseDuration(None) == Success(0)
    ensures ParseDuration(Some("")) == Success(0)
  {
    assert NatToString(36) == "36";
    assert NatToString(3600) == "3600";
    assert NatToString(3600) + "s" == "3600s";
    ParseDurationOfSeconds(3600);
    assert NatToString(0) + "s" == "0s";
    ParseDurationOfSeconds(0);
  }

  /** A bare suffix and a fractional number of seconds are not integers: the parse fails. */
  lemma ParseDurationRejects()
    ensures ParseDuration(Some("s")) == Failure(ParseFailure("s"))
    ensures ParseDuration(Some("12.5s")) == Failure(ParseFailure("12.5s"))
  {
    assert SecondsPart("12.5s")[2] == '.';
  }
}
