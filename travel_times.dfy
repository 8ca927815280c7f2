/**
 * `format_travel_time`: renders a number of minutes as "H hr(s) M mins", and
 * passes a placeholder string such as "N/A" through unchanged.
 */
module TravelTimes {
  import opened Wrappers
  import opened Decimal

  /** The formatter's argument: Python passes either an int or a str. */
  datatype TravelTime = Minutes(total: int) | Placeholder(text: string)

  /** The placeholder used for a travel mode without routes. */
  const NotAvailable := "N/A"

  /**
   * Integer case. `//` and `%` by 60 are Python's floor division and modulo;
   * with a positive divisor Dafny's `/` and `%` compute the same values.
   * A negative total has hours < 0 and so takes the minutes-only branch.
   */
  function FormatMinutes(total: int): (r: string)
    ensures |r| > 0 && IsDigit(r[0])
  {
    var hours := total / 60;
    var minutes := total % 60;
    if hours > 0 then
      if minutes == 0 then NatToString(hours) + " hr" + (if hours > 1 then "s" else "")
      else NatToString(hours) + " hr" + (if hours > 1 then "s" else "") + " " + NatToString(minutes) + " mins"
    else NatToString(minutes) + " mins"
  }

  function FormatTravelTime(t: TravelTime): (r: string)
    ensures t.Placeholder? ==> r == t.text
    ensures t.Minutes? ==> r == FormatMinutes(t.total)
  {
    match t
    case Placeholder(text) => text
    case Minutes(total) => FormatMinutes(total)
  }

  // ---------------------------------------------------------------------------
  // Reading a formatted time back: the words of the text, and their meaning.
  // ---------------------------------------------------------------------------

  /** s split at every single space, as `str.split(" ")` does. */
  function Words(s: string): (ws: seq<string>)
    ensures |ws| > 0
  {
    if |s| == 0 then [""]
    else
      var rest := Words(s[1..]);
      if s[0] == ' ' then [""] + rest else [[s[0]] + rest[0]] + rest[1..]
  }

  lemma {:induction false} WordsJoin(a: string, b: string)
    requires ' ' !in a
    ensures Words(a + " " + b) == [a] + Words(b)
  {
    if |a| > 0 {
      assert (a + " " + b)[1..] == a[1..] + " " + b;
      assert ' ' !in a[1..] by { assert forall k :: 0 <= k < |a[1..]| ==> a[1..][k] == a[k + 1]; }
      WordsJoin(a[1..], b);
      assert [a[0]] + a[1..] == a;
    } else {
      assert a + " " + b == [' '] + b;
    }
  }

  /** A string without spaces is a single word. */
  lemma {:induction false} WordsOfOne(a: string)
    requires ' ' !in a
    ensures Words(a) == [a]
  {
    if |a| > 0 {
      assert ' ' !in a[1..] by { assert forall k :: 0 <= k < |a[1..]| ==> a[1..][k] == a[k + 1]; }
      WordsOfOne(a[1..]);
      assert [a[0]] + a[1..] == a;
    }
  }

  /** Two words joined by a space split back into those two words. */
  lemma WordsOfTwo(a: string, b: string)
    requires ' ' !in a && ' ' !in b
    ensures Words(a + " " + b) == [a, b]
  {
    WordsJoin(a, b);
    WordsOfOne(b);
  }

  /** Four words joined by spaces split back into those four words. */
  lemma WordsOfFour(a: string, b: string, c: string, d: string)
    requires ' ' !in a && ' ' !in b && ' ' !in c && ' ' !in d
    ensures Words(a + " " + b + " " + c + " " + d) == [a, b, c, d]
  {
    var cd := c + " " + d;
    var bcd := b + " " + cd;
    var s := a + " " + bcd;
    assert a + " " + b + " " + c + " " + d == s;
    WordsOfTwo(c, d);
    WordsJoin(b, cd);
    assert Words(bcd) == [b, c, d];
    WordsJoin(a, bcd);
    assert Words(s) == [a, b, c, d];
  }

  /** The unit word for a positive number of hours, as the formatter writes it. */
  function HourUnit(hours: int): string {
    if hours > 1 then "hrs" else "hr"
  }

  /** The words of a formatted time, case by case. */
  lemma FormatWords(total: int)
    ensures var hours, minutes := total / 60, total % 60;
      Words(FormatMinutes(total)) ==
        if hours > 0 && minutes == 0 then [NatToString(hours), HourUnit(hours)]
        else if hours > 0 then [NatToString(hours), HourUnit(hours), NatToString(minutes), "mins"]
        else [NatToString(minutes), "mins"]
  {
    var hours, minutes := total / 60, total % 60;
    var m := NatToString(minutes);
    if hours > 0 {
      var h, u := NatToString(hours), HourUnit(hours);
      var hourPart := h + " hr" + (if hours > 1 then "s" else "");
      assert hourPart == h + " " + u;
      if minutes == 0 {
        assert FormatMinutes(total) == hourPart;
        WordsOfTwo(h, u);
      } else {
        assert FormatMinutes(total) == hourPart + " " + m + " mins";
        assert hourPart + " " + m + " mins" == h + " " + u + " " + m + " " + "mins";
        WordsOfFour(h, u, m, "mins");
      }
    } else {
      assert FormatMinutes(total) == m + " " + "mins";
      WordsOfTwo(m, "mins");
    }
  }

  /**
   * The minutes a formatted time denotes: "M mins", "H hr", "H hrs",
   * "H hr M mins" or "H hrs M mins", where the unit agrees with H
   * ("hr" only for one hour, "hrs" for more). Anything else reads as None.
   */
  function ReadTravelTime(s: string): Option<int> {
    ReadWords(Words(s))
  }

  function ReadWords(ws: seq<string>): Option<int> {
    if |ws| == 2 && IsNumeral(ws[0]) then
      var n := NumeralValue(ws[0]);
      if ws[1] == "mins" then Some(n)
      else if n > 0 && ws[1] == HourUnit(n) then Some(60 * n)
      else None
    else if |ws| == 4 && IsNumeral(ws[0]) && IsNumeral(ws[2]) && ws[3] == "mins" then
      var hours := NumeralValue(ws[0]);
      if hours > 0 && ws[1] == HourUnit(hours) then Some(60 * hours + NumeralValue(ws[2])) else None
    else None
  }

  lemma ReadMinutesOnly(m: string)
    requires IsNumeral(m)
    ensures ReadWords([m, "mins"]) == Some(NumeralValue(m))
  {
  }

  lemma ReadWholeHours(h: string)
    requires IsNumeral(h) && NumeralValue(h) > 0
    ensures ReadWords([h, HourUnit(NumeralValue(h))]) == Some(60 * NumeralValue(h))
  {
    assert HourUnit(NumeralValue(h)) != "mins" by { assert HourUnit(NumeralValue(h))[0] == 'h'; }
  }

  lemma ReadHoursAndMinutes(h: string, m: string)
    requires IsNumeral(h) && NumeralValue(h) > 0 && IsNumeral(m)
    ensures ReadWords([h, HourUnit(NumeralValue(h)), m, "mins"]) == Some(60 * NumeralValue(h) + NumeralValue(m))
  {
  }

  /** Formatting a non-negative number of minutes loses nothing: reading it back gives the number. */
  lemma FormatRoundTrip(total: int)
    requires total >= 0
    ensures ReadTravelTime(FormatMinutes(total)) == Some(total)
  {
    var hours, minutes := total / 60, total % 60;
    var ws := Words(FormatMinutes(total));
    FormatWords(total);
    if hours > 0 && minutes == 0 {
      assert ws == [NatToString(hours), HourUnit(hours)];
      NumeralRoundTrip(hours);
      ReadWholeHours(NatToString(hours));
    } else if hours > 0 {
      assert ws == [NatToString(hours), HourUnit(hours), NatToString(minutes), "mins"];
      NumeralRoundTrip(hours);
      NumeralRoundTrip(minutes);
      ReadHoursAndMinutes(NatToString(hours), NatToString(minutes));
    } else {
      assert ws == [NatToString(minutes), "mins"];
      NumeralRoundTrip(minutes);
      ReadMinutesOnly(NatToString(minutes));
    }
  }

  /** Different non-negative totals never render to the same text. */
  lemma FormatInjective(m: int, n: int)
    requires m >= 0 && n >= 0 && FormatMinutes(m) == FormatMinutes(n)
    ensures m == n
  {
    FormatRoundTrip(m);
    FormatRoundTrip(n);
  }

  /** The singular "hr" appears exactly for one hour, the plural "hrs" exactly for more. */
  lemma HourUnitAgreement(total: int)
    ensures ("hr" in Words(FormatMinutes(total))) <==> total / 60 == 1
    ensures ("hrs" in Words(FormatMinutes(total))) <==> total / 60 > 1
  {
    FormatWords(total);
    var hours, minutes := total / 60, total % 60;
    assert NatToString(minutes)[0] != 'h';
    if hours > 0 {
      assert NatToString(hours)[0] != 'h';
    }
  }

  /** The minutes part "M mins" is present exactly when there are no whole hours or a remainder is left. */
  lemma MinutesPartPresence(total: int)
    ensures ("mins" in Words(FormatMinutes(total))) <==> (total / 60 <= 0 || total % 60 != 0)
  {
    FormatWords(total);
    if total / 60 > 0 {
      assert NatToString(total / 60)[0] != 'm';
    }
  }

  /** A negative total prints only its remainder modulo 60. */
  lemma NegativeShowsRemainder(total: int)
    requires total < 0
    ensures Words(FormatMinutes(total)) == [NatToString(total % 60), "mins"]
    ensures ReadTravelTime(FormatMinutes(total)) == Some(total % 60)
  {
    FormatWords(total);
    NumeralRoundTrip(total % 60);
    ReadMinutesOnly(NatToString(total % 60));
  }

  /** Below one hour (and for negative totals) only the minutes are shown. */
  lemma FormatUnderAnHour(total: int)
    requires total < 60
    ensures FormatMinutes(total) == NatToString(total % 60) + " mins"
  {
  }

  /** Examples of the formatter with whole hours. */
  lemma FormatHourExamples()
    ensures FormatTravelTime(Minutes(90)) == "1 hr 30 mins"
    ensures FormatTravelTime(Minutes(60)) == "1 hr"
    ensures FormatTravelTime(Minutes(120)) == "2 hrs"
  {
    assert NatToString(30) == "30";
  }

  /** Examples of the formatter below one hour, and the placeholder. */
  lemma FormatMinuteExamples()
    ensures FormatTravelTime(Minutes(45)) == "45 mins"
    ensures FormatTravelTime(Minutes(0)) == "0 mins"
    ensures FormatTravelTime(Placeholder(NotAvailable)) == "N/A"
  {
    assert NatToString(45) == "45";
  }
}
