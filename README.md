# Traffic situation advisory — a Dafny model

This project models the decision core of a traffic notifier. Each run queries
route durations for one commute in three travel modes: drive (with
alternatives), motorcycle (`TWO_WHEELER`) and transit. From those results it
builds one advisory:

- the traffic delay, which is the live drive time minus the free-flow time;
- a heavy-traffic flag, set when that delay is more than 10 minutes;
- the time of each mode, or `"N/A"` when a mode has no routes;
- the first alternate drive route that saves at least the detour threshold;
- the polyline drawn on the map image;
- the red or green colour, emoji and status text of the chat message.

Every duration is rendered by the `format_travel_time` helper ("1 hr 30 mins").

In the source this logic sits inside `main()` in `trafficSituationNotifier.py`,
between the HTTP fetches and the webhook post. Here it is a function,
`TrafficAdvisory.BuildAdvisory`, plus two methods:

- `RunAdvisory` follows `main()` statement by statement;
- `ScanAlternates` is the detour `for` loop with its `break`.

Each method is proved equal to the function that specifies it.

Modules, one per file:

| file | module | models |
|---|---|---|
| wrappers.dfy | `Wrappers` | `Option` and `Result`, so that `:-` propagates a failure like the source's exceptions |
| decimal.dfy | `Decimal` | Python's rendering of an int in an f-string, and `int()` on a string of digits |
| durations.dfy | `Durations` | `parse_duration` ("<N>s" → minutes) |
| travel_times.dfy | `TravelTimes` | `format_travel_time` (helpers/formatTravelTime.py) |
| traffic_advisory.dfy | `TrafficAdvisory` | the advisory logic of `main()` |

Decisions:

- The route lists of a mode's result are sequences of `Route`. A response without a `routes` key and one with an empty list are the same empty sequence, as `not data.get('routes')` treats them.
- A `Failure` result, carrying a `RunError`, means the run ends without posting anything. `NoRoute` is the early `return`. `BadDuration` is an exception caught by the catch-all `except`.
- Durations are read in the order the source reads them: primary live, primary static, motorcycle, transit, then alternates only as far as the scan gets. An alternate after the first match is never parsed, so a malformed one there does not fail the run (`LaterAlternatesIgnored`).
- The map polyline is always the primary route's. Both calls to `generate_static_map_url` pass `main_route`. The comment above the second call says the map is updated to the better route, but the code does not do that, and the model follows the code.
- The detour threshold is a parameter. The configured value 5 is `DefaultDetourThresholdMin`.
- `format_travel_time` is modelled for every integer. For a divisor of 60, Dafny's `/` and `%` agree with Python's `//` and `%`. A negative total has negative hours, so it takes the minutes-only branch and prints only its remainder (`NegativeShowsRemainder`).
- `helpers/parseDuration.py` is not part of this model. `Durations.ParseDuration` follows an assumed contract, and is NOT checked against its source. The assumption is that the helper reads Google's `"<seconds>s"` duration strings as below, which is how the caller at trafficSituationNotifier.py:29-30 uses it:
  - absent or empty input gives 0;
  - otherwise one trailing `s` is dropped;
  - the rest must be a non-empty string of decimal digits, and its value is floor-divided by 60;
  - anything else is a parse failure.
- `format_travel_time` has a partner, `ReadTravelTime`. It reads a formatted time back through its space-separated words, accepting "hr" only after 1 and "hrs" only after more than 1. `FormatRoundTrip` proves that formatting a non-negative total loses nothing.

## Model

| member | source | states |
|---|---|---|
| `Decimal.NatToString` | helpers/formatTravelTime.py:9-12 | the f-string rendering of a count is a non-empty string of digits without spaces, in canonical form: it starts with '0' only for 0 |
| `Decimal.NumeralRoundTrip` | helpers/formatTravelTime.py:9-12 | reading a rendered number as digits gives the number back |
| `Decimal.IntToString` | trafficSituationNotifier.py:77 | the f-string rendering of `{traffic_delay}` (and of `{time_saved}` at :60) is non-empty, has no spaces, and starts with '-' exactly for a negative number |
| `Decimal.ReadInt` | trafficSituationNotifier.py:77 | a string reads as an integer exactly when it is digits, or '-' followed by digits |
| `Decimal.IntRoundTrip` | trafficSituationNotifier.py:77 | reading the rendering of any integer, sign and digits, gives the integer back |
| `Durations.ParseDuration` | trafficSituationNotifier.py:29-30 | absent or empty duration reads as 0 minutes; the parse fails exactly when the text without its trailing `s` is not a digit string, and the failure carries the raw text |
| `Durations.ParseDurationOfSeconds` | trafficSituationNotifier.py:29-30 | every well-formed "<N>s" duration parses to N div 60 minutes |
| `Durations.ParseDurationExamples` | trafficSituationNotifier.py:29-30 | "3600s" → 60, "0s" → 0, absent → 0, "" → 0 |
| `Durations.ParseDurationRejects` | trafficSituationNotifier.py:29-30 | "s" and "12.5s" are parse failures |
| `TravelTimes.FormatMinutes` | helpers/formatTravelTime.py:4-12 | the integer branch always starts with a digit, never a sign; its words, round trip and units are the lemmas FormatWords, FormatRoundTrip, FormatInjective, HourUnitAgreement, MinutesPartPresence, NegativeShowsRemainder and FormatUnderAnHour below |
| `TravelTimes.FormatTravelTime` | helpers/formatTravelTime.py:1-2 | a string argument (such as "N/A") is returned unchanged; an integer goes to the minutes rendering |
| `TravelTimes.FormatWords` | helpers/formatTravelTime.py:4-12 | with hours = n div 60 and minutes = n mod 60, the words are [H, unit] for whole hours, [H, unit, M, "mins"] for hours and minutes, and [M, "mins"] when hours ≤ 0 |
| `TravelTimes.FormatRoundTrip` | helpers/formatTravelTime.py:4-12 | for n ≥ 0, reading the formatted text back gives n, so 60·hours + minutes = n is preserved by the rendering |
| `TravelTimes.FormatInjective` | helpers/formatTravelTime.py:4-12 | two different non-negative totals never render to the same text |
| `TravelTimes.HourUnitAgreement` | helpers/formatTravelTime.py:9-10 | the word "hr" appears exactly when hours = 1 and "hrs" exactly when hours > 1 |
| `TravelTimes.MinutesPartPresence` | helpers/formatTravelTime.py:7-12 | the "mins" word appears exactly when there are no whole hours or a non-zero remainder |
| `TravelTimes.NegativeShowsRemainder` | helpers/formatTravelTime.py:4-12 | a negative total takes the else branch and shows only n mod 60 minutes |
| `TravelTimes.FormatUnderAnHour` | helpers/formatTravelTime.py:11-12 | below 60 minutes the text is "M mins", including "0 mins" |
| `TravelTimes.FormatHourExamples` | helpers/formatTravelTime.py:7-10 | 90 → "1 hr 30 mins", 60 → "1 hr", 120 → "2 hrs" |
| `TravelTimes.FormatMinuteExamples` | helpers/formatTravelTime.py:1-12 | 45 → "45 mins", 0 → "0 mins", "N/A" → "N/A" |
| `TrafficAdvisory.ParseMinutes` | trafficSituationNotifier.py:109-110 | a parse failure of any duration becomes a failure of the run carrying that duration's text |
| `TrafficAdvisory.ModeTime` | trafficSituationNotifier.py:36-37 | a mode's time is "N/A" exactly when it has no routes; otherwise it is its first route's parsed duration, and a bad duration fails |
| `TrafficAdvisory.HeavyTrafficText` | trafficSituationNotifier.py:77 | the heavy-traffic line is its fixed lead, the delay and its fixed tail, and the text between them reads back as exactly the delay, negative or not |
| `TrafficAdvisory.SignalFor` | trafficSituationNotifier.py:74-77 | red emoji, red embed colour (line 98) and non-empty heavy-traffic text exactly when traffic is heavy; otherwise green with empty text |
| `TrafficAdvisory.DetourMessage` | trafficSituationNotifier.py:58-62 | the alternative-route message is the f-string's fixed text with `time_saved` and `alt_time` in their places, and the two numbers read back as the detour's saving and the alternate's minutes |
| `TrafficAdvisory.BetterRouteMessage` | trafficSituationNotifier.py:45-62 | `better_route_msg` is empty exactly when no detour was found, and is the detour's message when one was |
| `TrafficAdvisory.FirstDetour` | trafficSituationNotifier.py:52-69 | a reported detour saves at least the threshold; the scan fails only on a bad duration, never with "no route" |
| `TrafficAdvisory.FirstMatchIsChosen` | trafficSituationNotifier.py:53-69 | when alternate k is the first to reach the threshold and all before it parsed, the scan reports alternate k |
| `TrafficAdvisory.ChosenIsFirstMatch` | trafficSituationNotifier.py:53-69 | any detour the scan reports is the first alternate, in provider order, that reaches the threshold |
| `TrafficAdvisory.NoDetourIffAllRejected` | trafficSituationNotifier.py:45-57 | no detour is reported exactly when every alternate parses and saves less than the threshold, including when there is no alternate |
| `TrafficAdvisory.FailureIsFirstBadAlternate` | trafficSituationNotifier.py:53-54 | a failed scan failed on the first unparsable alternate reached before any match |
| `TrafficAdvisory.LaterAlternatesIgnored` | trafficSituationNotifier.py:57-69 | after the first match (`break`), later alternates change nothing, even a better or malformed one |
| `TrafficAdvisory.ScanAlternates` | trafficSituationNotifier.py:44-69 | the loop with `break` computes the first-match scan; its message is `better_route_msg`; the map polyline stays the primary route's |
| `TrafficAdvisory.BuildAdvisory` | trafficSituationNotifier.py:24-69 | "no route" exactly for an empty drive list; delay = parsed live − parsed static; heavy exactly when delay > 10; mode times and formatted times; detour = first-match scan; map = primary polyline; signal from the heavy flag; failure exactly when a duration read on the way fails |
| `TrafficAdvisory.Compose` | trafficSituationNotifier.py:32-98 | from the parsed values: heavy exactly when live exceeds free-flow by more than 10, red colour exactly when heavy, the formatted drive time reads back as the drive minutes, an empty route message exactly without a detour, the map on the primary polyline |
| `TrafficAdvisory.RunAdvisory` | trafficSituationNotifier.py:24-98 | the statement-by-statement run of `main()` yields the same result as BuildAdvisory |
| `TrafficAdvisory.MissingModeShowsPlaceholder` | trafficSituationNotifier.py:36-42 | a mode's formatted time is "N/A" exactly when it has no routes |
| `TrafficAdvisory.FirstMatchNotBestMatch` | trafficSituationNotifier.py:52-69 | primary 60, alternates 58, 50, 40, threshold 5: the 50-minute route (saving 10) is chosen, not the 40-minute one |
| `TrafficAdvisory.SingleRouteTraffic` | trafficSituationNotifier.py:28-33 | one drive route with "<A>s" and "<B>s" gives delay A div 60 − B div 60 and no detour |
| `TrafficAdvisory.HeavyAboveTen` | trafficSituationNotifier.py:33 | 50 against 35 minutes: delay 15, heavy, red |
| `TrafficAdvisory.LightBelowTen` | trafficSituationNotifier.py:33 | 40 against 35 minutes: delay 5, not heavy, green |
| `TrafficAdvisory.LightAtTen` | trafficSituationNotifier.py:33 | a delay of exactly 10 is not heavy, and no heavy-traffic text is produced |
| `TrafficAdvisory.NegativeDelay` | trafficSituationNotifier.py:32 | a free-flow time above the live time gives a negative delay and no error |
| `TrafficAdvisory.EndToEndScenario` | trafficSituationNotifier.py:24-69 | drive 50 / free-flow 40, moto 30, transit 90, no alternates: delay 10 not heavy, "50 mins", "30 mins", "1 hr 30 mins", no detour, primary polyline, green |
| `TrafficAdvisory.BadPrimaryDurationFails` | trafficSituationNotifier.py:29 | an unparsable primary duration ends the run with no advisory |
| `TrafficAdvisory.BadModeDurationFails` | trafficSituationNotifier.py:36 | an unparsable motorcycle duration ends the run although the drive route is fine |
| `TrafficAdvisory.FailureFollowsReadOrder` | trafficSituationNotifier.py:29-54 | a failed run reports the first bad duration in read order: primary live, primary static, motorcycle, transit, then the alternates the scan reaches |
| `TrafficAdvisory.PrimaryFailureReportedFirst` | trafficSituationNotifier.py:29-36 | with a bad primary ("12.5s") and a bad motorcycle duration ("abc"), the run fails on "12.5s" |

## Left out

- Route fetching (`get_route_data`, config/googleData.py:5-42) is an HTTP request. Its results are the input sequences of routes. A non-200 response is a run failure outside this model.
- Map URL building (`generate_static_map_url`, config/googleData.py:45-60) joins float coordinates, the API key and the zoom level into a URL. Only the polyline passed to it is modelled.
- Configuration loading (config/config.py, config.py) reads environment variables and parses float coordinates. The threshold is a parameter, and the colours and the heavy limit are constants.
- The webhook URL check (trafficSituationNotifier.py:10-15), the clock read (:72), the message template (:79-91), the payload title and the post with its status printing (:93-107) are I/O.
- The `print` of the catch-all `except` (:109-110) is only modelled as a `Failure` result with nothing posted.
- Durations.ParseDuration: checked only against an assumed contract, not the helper's source, which is not part of this model. Python's `int()` also accepts a sign, surrounding whitespace and digit-group underscores; the model accepts plain digits only.
- The `distanceMeters` field of a route is requested but never used, so `Route` does not carry it.
- A route without a `polyline` key, or a response that is not a JSON object, would raise a `KeyError` or `AttributeError`. The model assumes every route has a polyline.
- Emoji are Unicode code points in Dafny strings. Their UTF-8 encoding in the payload is not modelled.
