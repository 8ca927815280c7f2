/**
 * The advisory logic of the traffic notifier's `main()`: from the route
 * results of three travel modes (drive, motorcycle, transit) it computes the
 * traffic delay and heavy-traffic flag, the time of each mode, the first
 * alternate drive route that saves enough time, the map polyline, and the
 * colour, emoji and status text of the message. Fetching the routes,
 * building the map URL, the message template and posting it stay outside.
 */
module TrafficAdvisory {
  import opened Wrappers
  import opened Decimal
  import opened Durations
  import opened TravelTimes

  /** A delay above this many minutes is heavy traffic (strictly above). */
  const HeavyDelayMin := 10
  /** The configured detour threshold; the model takes the threshold as a parameter. */
  const DefaultDetourThresholdMin := 5
  /** Embed colours of the message: red for heavy traffic, green otherwise. */
  const ColorRed := 16711680
  const ColorGreen := 65280
  const RedCircle := "\U{1F534}"
  const GreenCircle := "\U{1F7E2}"

  /**
   * One route candidate of a mode's result: the live duration, the free-flow
   * (static) duration, both as "<N>s" strings or absent, and the encoded polyline.
   */
  datatype Route = Route(duration: Option<string>, staticDuration: Option<string>, polyline: string)

  /** Why a run ends without an advisory (and without posting anything). */
  datatype RunError = NoRoute | BadDuration(raw: string)

  datatype Traffic = Traffic(delay: int, isHeavy: bool)

  /** An alternate route worth taking: the minutes it saves and its own duration. */
  datatype Detour = Detour(saved: int, altMinutes: nat)

  /** What the heavy flag selects in the message: header emoji, embed colour, status text. */
  datatype Signal = Signal(headerEmoji: string, embedColor: int, statusText: string)

  datatype Advisory = Advisory(
    driveMinutes: nat,
    staticMinutes: nat,
    traffic: Traffic,
    motoTime: TravelTime,
    transitTime: TravelTime,
    formattedDrive: string,
    formattedMoto: string,
    formattedTransit: string,
    detour: Option<Detour>,
    betterRouteMsg: string,
    mapPolyline: string,
    signal: Signal)

  /** parse_duration, with its failure turned into a failure of the run. */
  function ParseMinutes(raw: Option<string>): (r: Result<nat, RunError>)
    ensures r.Success? <==> ParseDuration(raw).Success?
    ensures r.Success? ==> r.value == ParseDuration(raw).value
    ensures r.Failure? ==> r.error == BadDuration(raw.value)
  {
    match ParseDuration(raw)
    case Success(m) => Success(m)
    case Failure(e) => Failure(BadDuration(e.raw))
  }

  /** The time of a non-primary mode: its first route's minutes, or "N/A" without routes. */
  function ModeTime(routes: seq<Route>): (r: Result<TravelTime, RunError>)
    ensures r == Success(Placeholder(NotAvailable)) <==> |routes| == 0
    ensures |routes| > 0 ==> (r.Success? <==> ParseMinutes(routes[0].duration).Success?)
    ensures |routes| > 0 && r.Success? ==> r.value == Minutes(ParseMinutes(routes[0].duration).value)
  {
    if |routes| == 0 then Success(Placeholder(NotAvailable))
    else
      var m :- ParseMinutes(routes[0].duration);
      Success(Minutes(m))
  }

  const HeavyTextLead := "\U{26A0}\U{FE0F} **HEAVY TRAFFIC DETECTED**\nCurrent traffic conditions are adding around "
  const HeavyTextTail := " minutes of delay compared to free-flow traffic."

  /** The heavy-traffic line: the delay sits between the fixed lead and tail and reads back as itself. */
  function HeavyTrafficText(delay: int): (r: string)
    ensures |r| > |HeavyTextLead| + |HeavyTextTail|
    ensures r[..|HeavyTextLead|] == HeavyTextLead && r[|r| - |HeavyTextTail|..] == HeavyTextTail
    ensures ReadInt(r[|HeavyTextLead|..|r| - |HeavyTextTail|]) == Some(delay)
  {
    var r := HeavyTextLead + IntToString(delay) + HeavyTextTail;
    assert r[|HeavyTextLead|..|r| - |HeavyTextTail|] == IntToString(delay);
    IntRoundTrip(delay);
    r
  }

  /** Red emoji, red colour and the heavy-traffic text exactly when traffic is heavy. */
  function SignalFor(traffic: Traffic): (s: Signal)
    ensures s.headerEmoji == RedCircle <==> traffic.isHeavy
    ensures s.headerEmoji == GreenCircle <==> !traffic.isHeavy
    ensures s.embedColor == ColorRed <==> traffic.isHeavy
    ensures s.embedColor == ColorGreen <==> !traffic.isHeavy
    ensures s.statusText != "" <==> traffic.isHeavy
    ensures traffic.isHeavy ==> s.statusText == HeavyTrafficText(traffic.delay)
  {
    Signal(
      if traffic.isHeavy then RedCircle else GreenCircle,
      if traffic.isHeavy then ColorRed else ColorGreen,
      if traffic.isHeavy then HeavyTrafficText(traffic.delay) else "")
  }

  const DetourLead := "\n**ALTERNATIVE ROUTE FOUND!**\nPlease be advised to take an alternate route that saves **"
  const DetourMid := " minutes**.\n(Travel time: "
  const DetourTail := " mins)"

  /**
   * The alternative-route message: the minutes saved between the fixed lead and
   * middle, the alternate's travel time between the middle and the tail; both
   * read back as the detour's numbers.
   */
  function DetourMessage(d: Detour): (msg: string)
    ensures var savedText, altText := IntToString(d.saved), NatToString(d.altMinutes);
      && |msg| == |DetourLead| + |savedText| + |DetourMid| + |altText| + |DetourTail|
      && msg[..|DetourLead|] == DetourLead
      && msg[|DetourLead| + |savedText|..|DetourLead| + |savedText| + |DetourMid|] == DetourMid
      && msg[|msg| - |DetourTail|..] == DetourTail
      && ReadInt(msg[|DetourLead|..|DetourLead| + |savedText|]) == Some(d.saved)
      && ReadInt(msg[|DetourLead| + |savedText| + |DetourMid|..|msg| - |DetourTail|]) == Some(d.altMinutes)
  {
    var savedText, altText := IntToString(d.saved), NatToString(d.altMinutes);
    var msg := DetourLead + savedText + DetourMid + altText + DetourTail;
    assert msg[|DetourLead|..|DetourLead| + |savedText|] == savedText;
    assert msg[|DetourLead| + |savedText| + |DetourMid|..|msg| - |DetourTail|] == altText;
    IntRoundTrip(d.saved);
    IntRoundTrip(d.altMinutes);
    msg
  }

  /** The `better_route_msg` of the run: empty exactly when no detour was found. */
  function BetterRouteMessage(detour: Option<Detour>): (msg: string)
    ensures msg == "" <==> detour == None
    ensures detour.Some? ==> msg == DetourMessage(detour.value)
  {
    match detour
    case None => ""
    case Some(d) => DetourMessage(d)
  }

  // ---------------------------------------------------------------------------
  // The detour scan: first match over the alternates, in provider order.
  // ---------------------------------------------------------------------------

  /**
   * The first alternate whose saving (primary minus alternate) reaches the
   * threshold; a duration that fails to parse before that point fails the run.
   */
  function FirstDetour(primaryMinutes: nat, alts: seq<Route>, threshold: int): (r: Result<Option<Detour>, RunError>)
    ensures r.Failure? ==> r.error.BadDuration?
    ensures r.Success? && r.value.Some? ==> r.value.value.saved >= threshold
  {
    if |alts| == 0 then Success(None)
    else
      var alt :- ParseMinutes(alts[0].duration);
      if primaryMinutes - alt >= threshold then Success(Some(Detour(primaryMinutes - alt, alt)))
      else FirstDetour(primaryMinutes, alts[1..], threshold)
  }

  /** The alternate parses and saves fewer minutes than the threshold. */
  ghost predicate Rejected(primaryMinutes: nat, alt: Route, threshold: int) {
    ParseMinutes(alt.duration).Success? && primaryMinutes - ParseMinutes(alt.duration).value < threshold
  }

  /** alts[k] is the first alternate that reaches the threshold, every one before it parsed and fell short. */
  ghost predicate FirstMatchAt(primaryMinutes: nat, alts: seq<Route>, threshold: int, k: int) {
    && 0 <= k < |alts|
    && (forall j :: 0 <= j < k ==> Rejected(primaryMinutes, alts[j], threshold))
    && ParseMinutes(alts[k].duration).Success?
    && primaryMinutes - ParseMinutes(alts[k].duration).value >= threshold
  }

  /** The detour a first match at k reports. */
  ghost function DetourAt(primaryMinutes: nat, alts: seq<Route>, k: int): Detour
    requires 0 <= k < |alts| && ParseMinutes(alts[k].duration).Success?
  {
    var alt := ParseMinutes(alts[k].duration).value;
    Detour(primaryMinutes - alt, alt)
  }

  /** A first match at k is what the scan reports. */
  lemma {:induction false} FirstMatchIsChosen(primaryMinutes: nat, alts: seq<Route>, threshold: int, k: int)
    requires FirstMatchAt(primaryMinutes, alts, threshold, k)
    ensures FirstDetour(primaryMinutes, alts, threshold) == Success(Some(DetourAt(primaryMinutes, alts, k)))
  {
    if k > 0 {
      assert Rejected(primaryMinutes, alts[0], threshold);
      assert forall j :: 0 <= j < k - 1 ==> alts[1..][j] == alts[j + 1];
      assert FirstMatchAt(primaryMinutes, alts[1..], threshold, k - 1);
      FirstMatchIsChosen(primaryMinutes, alts[1..], threshold, k - 1);
      assert DetourAt(primaryMinutes, alts[1..], k - 1) == DetourAt(primaryMinutes, alts, k);
    }
  }

  /** Whatever the scan reports is a first match. */
  lemma {:induction false} ChosenIsFirstMatch(primaryMinutes: nat, alts: seq<Route>, threshold: int, d: Detour)
    requires FirstDetour(primaryMinutes, alts, threshold) == Success(Some(d))
    ensures exists k :: FirstMatchAt(primaryMinutes, alts, threshold, k) && d == DetourAt(primaryMinutes, alts, k)
  {
    var alt := ParseMinutes(alts[0].duration).value;
    if primaryMinutes - alt >= threshold {
      assert FirstMatchAt(primaryMinutes, alts, threshold, 0);
    } else {
      ChosenIsFirstMatch(primaryMinutes, alts[1..], threshold, d);
      var k :| FirstMatchAt(primaryMinutes, alts[1..], threshold, k) && d == DetourAt(primaryMinutes, alts[1..], k);
      assert forall j :: 0 <= j <= k ==> alts[1..][j] == alts[j + 1];
      assert FirstMatchAt(primaryMinutes, alts, threshold, k + 1);
    }
  }

  /** No detour is reported exactly when every alternate parses and falls short (vacuously with none). */
  lemma {:induction false} NoDetourIffAllRejected(primaryMinutes: nat, alts: seq<Route>, threshold: int)
    ensures FirstDetour(primaryMinutes, alts, threshold) == Success(None)
        <==> forall j :: 0 <= j < |alts| ==> Rejected(primaryMinutes, alts[j], threshold)
  {
    if |alts| > 0 {
      NoDetourIffAllRejected(primaryMinutes, alts[1..], threshold);
      assert forall j :: 0 <= j < |alts| - 1 ==> alts[1..][j] == alts[j + 1];
      if Rejected(primaryMinutes, alts[0], threshold) {
        assert (forall j :: 0 <= j < |alts| ==> Rejected(primaryMinutes, alts[j], threshold))
          <==> (forall j :: 0 <= j < |alts| - 1 ==> Rejected(primaryMinutes, alts[1..][j], threshold));
      }
    }
  }

  /** A failure of the scan is the parse failure of an alternate reached before any match. */
  lemma {:induction false} FailureIsFirstBadAlternate(primaryMinutes: nat, alts: seq<Route>, threshold: int, e: RunError)
    requires FirstDetour(primaryMinutes, alts, threshold) == Failure(e)
    ensures exists k :: (0 <= k < |alts|
      && (forall j :: 0 <= j < k ==> Rejected(primaryMinutes, alts[j], threshold))
      && ParseMinutes(alts[k].duration) == Failure(e))
  {
    if ParseMinutes(alts[0].duration).Failure? {
      assert ParseMinutes(alts[0].duration) == Failure(e);
    } else {
      FailureIsFirstBadAlternate(primaryMinutes, alts[1..], threshold, e);
      var k :| 0 <= k < |alts[1..]|
        && (forall j :: 0 <= j < k ==> Rejected(primaryMinutes, alts[1..][j], threshold))
        && ParseMinutes(alts[1..][k].duration) == Failure(e);
      assert forall j :: 0 <= j <= k ==> alts[1..][j] == alts[j + 1];
      assert Rejected(primaryMinutes, alts[0], threshold);
      assert ParseMinutes(alts[k + 1].duration) == Failure(e);
    }
  }

  /**
   * The scan stops at the first match: alternates after it, however much
   * they would save and even if their durations are malformed, change nothing.
   */
  lemma LaterAlternatesIgnored(primaryMinutes: nat, alts: seq<Route>, later: seq<Route>, threshold: int, k: int)
    requires FirstMatchAt(primaryMinutes, alts, threshold, k)
    ensures FirstDetour(primaryMinutes, alts + later, threshold) == FirstDetour(primaryMinutes, alts, threshold)
  {
    assert forall j :: 0 <= j <= k ==> (alts + later)[j] == alts[j];
    assert FirstMatchAt(primaryMinutes, alts + later, threshold, k);
    FirstMatchIsChosen(primaryMinutes, alts, threshold, k);
    FirstMatchIsChosen(primaryMinutes, alts + later, threshold, k);
  }

  /**
   * The detour loop of `main()`: walks `routes[1:]` in order and breaks at the
   * first alternate that saves at least `threshold` minutes. The map polyline
   * is reassigned on a match, but to the primary route's polyline again.
   */
  method ScanAlternates(drive: seq<Route>, primaryMinutes: nat, threshold: int)
    returns (outcome: Result<Option<Detour>, RunError>, betterRouteMsg: string, mapPolyline: string)
    requires |drive| > 0
    ensures outcome == FirstDetour(primaryMinutes, drive[1..], threshold)
    ensures outcome.Success? ==> betterRouteMsg == BetterRouteMessage(outcome.value)
    ensures mapPolyline == drive[0].polyline
  {
    outcome := Success(None);
    betterRouteMsg := "";
    mapPolyline := drive[0].polyline;
    if |drive| > 1 {
      var i := 1;
      while i < |drive|
        invariant 1 <= i <= |drive|
        invariant FirstDetour(primaryMinutes, drive[1..], threshold) == FirstDetour(primaryMinutes, drive[i..], threshold)
        invariant outcome == Success(None) && betterRouteMsg == "" && mapPolyline == drive[0].polyline
      {
        var parsed := ParseMinutes(drive[i].duration);
        if parsed.Failure? {
          outcome := Failure(parsed.error);
          return;
        }
        var altTime := parsed.value;
        var timeSaved := primaryMinutes - altTime;
        if timeSaved >= threshold {
          var d := Detour(timeSaved, altTime);
          betterRouteMsg := DetourMessage(d);
          mapPolyline := drive[0].polyline;
          outcome := Success(Some(d));
          break;
        }
        assert drive[i..][1..] == drive[i + 1..];
        i := i + 1;
      }
    }
  }

  // ---------------------------------------------------------------------------
  // The whole advisory.
  // ---------------------------------------------------------------------------

  /**
   * The advisory for one run, or the reason the run ends without one. Durations
   * are parsed in the source's order: primary live, primary static, motorcycle,
   * transit, then the alternates as the scan reaches them.
   */
  function BuildAdvisory(drive: seq<Route>, moto: seq<Route>, transit: seq<Route>, threshold: int): (r: Result<Advisory, RunError>)
    ensures r == Failure(NoRoute) <==> |drive| == 0
    ensures r.Success? ==>
      && ParseMinutes(drive[0].duration) == Success(r.value.driveMinutes)
      && ParseMinutes(drive[0].staticDuration) == Success(r.value.staticMinutes)
      && r.value.traffic.delay == r.value.driveMinutes - r.value.staticMinutes
      && (r.value.traffic.isHeavy <==> r.value.traffic.delay > HeavyDelayMin)
    ensures r.Success? ==>
      && ModeTime(moto) == Success(r.value.motoTime)
      && ModeTime(transit) == Success(r.value.transitTime)
      && r.value.formattedDrive == FormatTravelTime(Minutes(r.value.driveMinutes))
      && r.value.formattedMoto == FormatTravelTime(r.value.motoTime)
      && r.value.formattedTransit == FormatTravelTime(r.value.transitTime)
    ensures r.Success? ==>
      && FirstDetour(r.value.driveMinutes, drive[1..], threshold) == Success(r.value.detour)
      && r.value.betterRouteMsg == BetterRouteMessage(r.value.detour)
      && r.value.mapPolyline == drive[0].polyline
      && r.value.signal == SignalFor(r.value.traffic)
    ensures r.Failure? <==>
      || |drive| == 0
      || ParseMinutes(drive[0].duration).Failure?
      || ParseMinutes(drive[0].staticDuration).Failure?
      || ModeTime(moto).Failure?
      || ModeTime(transit).Failure?
      || FirstDetour(ParseMinutes(drive[0].duration).value, drive[1..], threshold).Failure?
  {
    if |drive| == 0 then Failure(NoRoute)
    else
      var mainRoute := drive[0];
      var driveMin :- ParseMinutes(mainRoute.duration);
      var staticMin :- ParseMinutes(mainRoute.staticDuration);
      var motoTime :- ModeTime(moto);
      var transitTime :- ModeTime(transit);
      var detour :- FirstDetour(driveMin, drive[1..], threshold);
      Success(Compose(mainRoute, driveMin, staticMin, motoTime, transitTime, detour))
  }

  /** The advisory from the values the run has computed: the formatted times, messages, map and signal. */
  function Compose(mainRoute: Route, driveMin: nat, staticMin: nat, motoTime: TravelTime, transitTime: TravelTime,
                   detour: Option<Detour>): (a: Advisory)
    ensures a.traffic.isHeavy <==> driveMin > staticMin + HeavyDelayMin
    ensures a.signal.embedColor == ColorRed <==> a.traffic.isHeavy
    ensures ReadTravelTime(a.formattedDrive) == Some(driveMin)
    ensures a.betterRouteMsg == "" <==> detour == None
    ensures a.mapPolyline == mainRoute.polyline
  {
    FormatRoundTrip(driveMin);
    var delay := driveMin - staticMin;
    var traffic := Traffic(delay, delay > HeavyDelayMin);
    Advisory(
      driveMin, staticMin, traffic, motoTime, transitTime,
      FormatTravelTime(Minutes(driveMin)), FormatTravelTime(motoTime), FormatTravelTime(transitTime),
      detour, BetterRouteMessage(detour), mainRoute.polyline, SignalFor(traffic))
  }

  /**
   * `main()` between the fetches and the post, statement by statement; the
   * detour step is the loop of ScanAlternates.
   */
  method RunAdvisory(drive: seq<Route>, moto: seq<Route>, transit: seq<Route>, threshold: int)
    returns (r: Result<Advisory, RunError>)
    ensures r == BuildAdvisory(drive, moto, transit, threshold)
  {
    if |drive| == 0 {
      return Failure(NoRoute);
    }
    var mainRoute := drive[0];
    var driveTimeMin :- ParseMinutes(mainRoute.duration);
    var staticTimeMin :- ParseMinutes(mainRoute.staticDuration);
    var trafficDelay := driveTimeMin as int - staticTimeMin;
    var isHeavyTraffic := trafficDelay > HeavyDelayMin;
    var motoTimeMin :- ModeTime(moto);
    var transitTimeMin :- ModeTime(transit);
    var formattedDrive := FormatTravelTime(Minutes(driveTimeMin));
    var formattedMoto := FormatTravelTime(motoTimeMin);
    var formattedTransit := FormatTravelTime(transitTimeMin);
    var scan, betterRouteMsg, mapPolyline := ScanAlternates(drive, driveTimeMin, threshold);
    var detour :- scan;
    var traffic := Traffic(trafficDelay, isHeavyTraffic);
    r := Success(Advisory(
      driveTimeMin, staticTimeMin, traffic, motoTimeMin, transitTimeMin,
      formattedDrive, formattedMoto, formattedTransit,
      detour, betterRouteMsg, mapPolyline, SignalFor(traffic)));
    assert r.value == Compose(mainRoute, driveTimeMin, staticTimeMin, motoTimeMin, transitTimeMin, detour);
  }

  // ---------------------------------------------------------------------------
  // Properties of whole runs.
  // ---------------------------------------------------------------------------

  /** A duration literal "<N>s" read as minutes. */
  lemma DurationLiteral(seconds: nat, s: string)
    requires s == NatToString(seconds) + "s"
    ensures ParseMinutes(Some(s)) == Success(seconds / 60)
  {
    ParseDurationOfSeconds(seconds);
  }

  /** A mode without routes is shown as "N/A", unchanged by the formatter. */
  lemma MissingModeShowsPlaceholder(drive: seq<Route>, moto: seq<Route>, transit: seq<Route>, threshold: int)
    requires BuildAdvisory(drive, moto, transit, threshold).Success?
    ensures |moto| == 0 <==> BuildAdvisory(drive, moto, transit, threshold).value.formattedMoto == "N/A"
    ensures |transit| == 0 <==> BuildAdvisory(drive, moto, transit, threshold).value.formattedTransit == "N/A"
  {
    var a := BuildAdvisory(drive, moto, transit, threshold).value;
    if |moto| > 0 {
      FormatRoundTrip(a.motoTime.total);
      assert ReadTravelTime("N/A") == None by { WordsOfOne("N/A"); }
    }
    if |transit| > 0 {
      FormatRoundTrip(a.transitTime.total);
      assert ReadTravelTime("N/A") == None by { WordsOfOne("N/A"); }
    }
  }

  /**
   * First match, not best match: with a 60-minute primary route, alternates of
   * 58, 50 and 40 minutes and a threshold of 5, the 50-minute route is chosen
   * (saving 10) although the 40-minute one would save 20 ("3480s", "3000s"
   * and "2400s" parse to these minutes, by ParseDurationOfSeconds).
   */
  lemma FirstMatchNotBestMatch(alts: seq<Route>)
    requires |alts| == 3
    requires ParseMinutes(alts[0].duration) == Success(58)
    requires ParseMinutes(alts[1].duration) == Success(50)
    requires ParseMinutes(alts[2].duration) == Success(40)
    ensures FirstDetour(60, alts, DefaultDetourThresholdMin) == Success(Some(Detour(10, 50)))
  {
    assert Rejected(60, alts[0], DefaultDetourThresholdMin);
    assert FirstMatchAt(60, alts, DefaultDetourThresholdMin, 1);
    FirstMatchIsChosen(60, alts, DefaultDetourThresholdMin, 1);
  }

  /** The advisory of a run with a single drive route and no other modes, from its two durations. */
  lemma SingleRouteTraffic(live: string, liveSeconds: nat, free: string, freeSeconds: nat)
    requires live == NatToString(liveSeconds) + "s" && free == NatToString(freeSeconds) + "s"
    ensures var r := BuildAdvisory([Route(Some(live), Some(free), "p")], [], [], DefaultDetourThresholdMin);
      && r.Success?
      && r.value.traffic.delay == liveSeconds / 60 - freeSeconds / 60
      && r.value.detour == None
  {
    DurationLiteral(liveSeconds, live);
    DurationLiteral(freeSeconds, free);
    assert [Route(Some(live), Some(free), "p")][1..] == [];
  }

  /** A delay of 15 minutes is heavy traffic: red colour and emoji. */
  lemma HeavyAboveTen()
    ensures var r := BuildAdvisory([Route(Some("3000s"), Some("2100s"), "p")], [], [], DefaultDetourThresholdMin);
      r.Success? && r.value.traffic == Traffic(15, true) && r.value.signal.embedColor == ColorRed
  {
    SingleRouteTraffic("3000s", 3000, "2100s", 2100);
  }

  /** A delay of 5 minutes is not heavy traffic: green colour. */
  lemma LightBelowTen()
    ensures var r := BuildAdvisory([Route(Some("2400s"), Some("2100s"), "p")], [], [], DefaultDetourThresholdMin);
      r.Success? && r.value.traffic == Traffic(5, false) && r.value.signal.embedColor == ColorGreen
  {
    SingleRouteTraffic("2400s", 2400, "2100s", 2100);
  }

  /** A delay of exactly 10 minutes is not heavy traffic (the test is strict). */
  lemma LightAtTen()
    ensures var r := BuildAdvisory([Route(Some("3000s"), Some("2400s"), "p")], [], [], DefaultDetourThresholdMin);
      r.Success? && r.value.traffic == Traffic(10, false) && r.value.signal.statusText == ""
  {
    SingleRouteTraffic("3000s", 3000, "2400s", 2400);
  }

  /** The free-flow duration may exceed the live one: the delay is then negative, and no error. */
  lemma NegativeDelay()
    ensures var r := BuildAdvisory([Route(Some("2400s"), Some("3000s"), "p")], [], [], DefaultDetourThresholdMin);
      r.Success? && r.value.traffic == Traffic(-10, false)
  {
    SingleRouteTraffic("2400s", 2400, "3000s", 3000);
  }

  /**
   * End to end: one drive route of 50 minutes against a free-flow 40 (delay 10,
   * not heavy), motorcycle 30 minutes, transit 90 minutes, no alternates
   * ("3000s", "2400s", "1800s" and "5400s" parse to these, by ParseDurationOfSeconds).
   */
  lemma EndToEndScenario(drive: seq<Route>, moto: seq<Route>, transit: seq<Route>)
    requires |drive| == 1 && |moto| == 1 && |transit| == 1
    requires ParseMinutes(drive[0].duration) == Success(50) && ParseMinutes(drive[0].staticDuration) == Success(40)
    requires ParseMinutes(moto[0].duration) == Success(30) && ParseMinutes(transit[0].duration) == Success(90)
    ensures
      var r := BuildAdvisory(drive, moto, transit, DefaultDetourThresholdMin);
      && r.Success?
      && r.value.traffic == Traffic(10, false)
      && r.value.formattedDrive == "50 mins"
      && r.value.formattedMoto == "30 mins"
      && r.value.formattedTransit == "1 hr 30 mins"
      && r.value.detour == None && r.value.betterRouteMsg == ""
      && r.value.mapPolyline == drive[0].polyline
      && r.value.signal == Signal(GreenCircle, ColorGreen, "")
  {
    assert drive[1..] == [];
    FormatHourExamples();
    FormatUnderAnHour(50);
    FormatUnderAnHour(30);
    assert NatToString(50) + " mins" == "50 mins";
    assert NatToString(30) + " mins" == "30 mins";
  }

  /** An unparsable primary duration ends the run with that duration's failure. */
  lemma BadPrimaryDurationFails()
    ensures BuildAdvisory([Route(Some("12.5s"), None, "p")], [], [], DefaultDetourThresholdMin) == Failure(BadDuration("12.5s"))
  {
    ParseDurationRejects();
  }

  /** An unparsable motorcycle duration ends the run too, though the drive route is fine. */
  lemma BadModeDurationFails()
    ensures BuildAdvisory([Route(Some("600s"), None, "p")], [Route(Some("abc"), None, "m")], [], DefaultDetourThresholdMin)
      == Failure(BadDuration("abc"))
  {
    assert SecondsPart("abc")[0] == 'a';
    DurationLiteral(600, "600s");
  }

  /**
   * Which bad duration a failed run reports: the first one read, in the order
   * primary live, primary static, motorcycle, transit, then the alternates.
   */
  lemma FailureFollowsReadOrder(drive: seq<Route>, moto: seq<Route>, transit: seq<Route>, threshold: int)
    requires |drive| > 0
    ensures var r := BuildAdvisory(drive, moto, transit, threshold);
      var live, free := ParseMinutes(drive[0].duration), ParseMinutes(drive[0].staticDuration);
      r.Failure? ==>
        r.error == if live.Failure? then live.error
        else if free.Failure? then free.error
        else if ModeTime(moto).Failure? then ModeTime(moto).error
        else if ModeTime(transit).Failure? then ModeTime(transit).error
        else FirstDetour(live.value, drive[1..], threshold).error
  {
  }

  /** A bad primary duration is reported even when the motorcycle duration is bad too. */
  lemma PrimaryFailureReportedFirst()
    ensures BuildAdvisory([Route(Some("12.5s"), None, "p")], [Route(Some("abc"), None, "m")], [], DefaultDetourThresholdMin)
      == Failure(BadDuration("12.5s"))
  {
    ParseDurationRejects();
  }
}
