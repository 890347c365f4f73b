/** The result parser of `utils/parseDetailedResult.js`: a loosely typed
    race-result document becomes a race summary with fixed defaults, the race
    session's strength of field and sky, and the drivers ordered by finishing
    position.  Every field the source reads with `||`, `??` or `?.` is an
    `Option` here, so each default is an explicit case. */
module ParseDetailedResult {
  import opened Text

  // ---------------------------------------------------------------------
  // The raw document (only the fields the parser reads)

  datatype RawDriver = RawDriver(
    finishPosition: Option<int>,   // finish_position, 0-based
    interval: Option<int>,         // interval, in ticks
    bestLapTime: Option<int>,      // best_lap_time, in ticks
    lapsComplete: Option<int>,     // laps_complete
    displayName: Option<Str>,      // display_name
    champPoints: Option<int>)      // champ_points

  datatype RawWeatherResult = RawWeatherResult(avgSkies: Option<real>)

  datatype RawSession = RawSession(
    simsessionType: Option<int>,
    strengthOfField: Option<int>,
    weatherResult: Option<RawWeatherResult>,
    results: Option<seq<RawDriver>>)

  datatype RawTrack = RawTrack(trackName: Option<Str>)
  datatype RawWeather = RawWeather(trackWater: Option<int>)
  datatype RawRaceSummary = RawRaceSummary(lapsComplete: Option<int>)

  datatype RawDocument = RawDocument(
    startTime: Option<Str>,
    track: Option<RawTrack>,
    weather: Option<RawWeather>,
    raceWeekNum: Option<int>,
    raceSummary: Option<RawRaceSummary>,
    numDrivers: Option<int>,
    sessionResults: Option<seq<RawSession>>,
    eventStrengthOfField: Option<int>)

  // ---------------------------------------------------------------------
  // The summary

  /** The average sky, which the source carries as its emoji. */
  datatype Sky = Clear | PartlyCloudy | MostlyCloudy | Overcast

  datatype SessionWeather = SessionWeather(conditionEmoji: Sky, avgSkies: int)

  /** One entry of the podium; times are in seconds. */
  datatype PodiumEntry = PodiumEntry(
    position: int,
    lapsComplete: int,
    marginRaw: real,
    driverName: Str,
    points: int,
    bestLap: real)

  datatype RaceSummary = RaceSummary(
    startTime: Option<Str>,
    trackName: Str,
    isWet: bool,
    raceWeek: int,
    lapCount: int,
    gridSize: int,
    sof: int,
    podium: seq<PodiumEntry>,
    weatherCondition: Sky)

  /** `simsession_type` of the race session. */
  const RaceSessionType := 6
  /** Raw times are ticks of a tenth of a millisecond. */
  const TicksPerSecond := 10000.0

  const UnknownTrack: Str := Ascii("Unknown Track")
  const UnknownDriver: Str := Ascii("???")

  /** The emoji the source stores for each sky, as code units: U+2600 sun,
      U+1F324 sun behind small cloud, U+1F325 sun behind large cloud and
      U+2601 cloud, each followed by the variation selector U+FE0F. */
  function SkyGlyph(sky: Sky): (r: Str)
    ensures |r| >= 2 && r[|r| - 1] == 0xFE0F
    ensures r[0] != 0xD83D && 0xDF27 !in r && 0xDFC6 !in r
  {
    match sky
    case Clear => [0x2600, 0xFE0F]
    case PartlyCloudy => [0xD83C, 0xDF24, 0xFE0F]
    case MostlyCloudy => [0xD83C, 0xDF25, 0xFE0F]
    case Overcast => [0x2601, 0xFE0F]
  }

  // ---------------------------------------------------------------------
  // Time and weather

  /** `iRacingTimeToSeconds`: ticks to seconds, 0 for an absent, zero or negative time. */
  function TimeToSeconds(rawTime: Option<int>): (seconds: real)
    ensures seconds >= 0.0
    ensures rawTime.Some? && rawTime.value > 0 ==> seconds * TicksPerSecond == rawTime.value as real
    ensures rawTime.None? || rawTime.value <= 0 ==> seconds == 0.0
  {
    if rawTime.None? || rawTime.value == 0 || rawTime.value < 0 then 0.0
    else rawTime.value as real / TicksPerSecond
  }

  /** `Math.round`: the nearest integer, halves rounded up. */
  function Round(x: real): (n: int)
    ensures n as real - 0.5 <= x < n as real + 0.5
  {
    (x + 0.5).Floor
  }

  /** The `switch` on the rounded sky value. */
  function SkyOf(skyVal: int): (sky: Sky)
    ensures sky == PartlyCloudy <==> skyVal == 1
    ensures sky == MostlyCloudy <==> skyVal == 2
    ensures sky == Overcast <==> skyVal == 3
    ensures sky == Clear <==> !(1 <= skyVal <= 3)
  {
    match skyVal
    case 0 => Clear
    case 1 => PartlyCloudy
    case 2 => MostlyCloudy
    case 3 => Overcast
    case _ => Clear
  }

  /** `parseSessionWeather(session)`. */
  function ParseSessionWeather(session: Option<RawSession>): (w: Option<SessionWeather>)
    ensures w.None? <==> session.None? || session.value.weatherResult.None?
    ensures w.Some? ==>
      var x := session.value.weatherResult.value.avgSkies.GetOr(0.0);
      w.value.avgSkies as real - 0.5 <= x < w.value.avgSkies as real + 0.5 &&
      w.value.conditionEmoji == SkyOf(w.value.avgSkies)
  {
    if session.None? || session.value.weatherResult.None? then None
    else
      var skyVal := Round(session.value.weatherResult.value.avgSkies.GetOr(0.0));
      Some(SessionWeather(SkyOf(skyVal), skyVal))
  }

  // ---------------------------------------------------------------------
  // Race session and sorting

  predicate IsRaceSession(s: RawSession) { s.simsessionType == Some(RaceSessionType) }

  /** `session_results.find(sr => sr.simsession_type === 6)`. */
  function FindRaceSession(sessions: seq<RawSession>): (r: Option<RawSession>)
    ensures r.None? <==> forall i :: 0 <= i < |sessions| ==> !IsRaceSession(sessions[i])
    ensures r.Some? ==> exists i :: 0 <= i < |sessions| && sessions[i] == r.value && IsRaceSession(r.value)
                           && forall j :: 0 <= j < i ==> !IsRaceSession(sessions[j])
  {
    if sessions == [] then None
    else if IsRaceSession(sessions[0]) then Some(sessions[0])
    else
      var r := FindRaceSession(sessions[1..]);
      assert forall j :: 1 <= j < |sessions| ==> sessions[j] == sessions[1..][j - 1];
      r
  }

  /** The value the comparator `a.finish_position - b.finish_position` sees. */
  function FinishKey(d: RawDriver): int { d.finishPosition.GetOr(0) }

  predicate SortedByFinish(s: seq<RawDriver>) {
    forall i, j :: 0 <= i < j < |s| ==> FinishKey(s[i]) <= FinishKey(s[j])
  }

  /** Puts `d` in front of the first element whose key is not smaller, so
      that `d` stays ahead of the equal keys that followed it in the input. */
  function Insert(d: RawDriver, sorted: seq<RawDriver>): (r: seq<RawDriver>)
    requires SortedByFinish(sorted)
    ensures SortedByFinish(r)
    ensures multiset(r) == multiset(sorted) + multiset{d}
  {
    if sorted == [] || FinishKey(d) <= FinishKey(sorted[0]) then
      ConsSorted(d, sorted);
      [d] + sorted
    else
      var rest := Insert(d, sorted[1..]);
      assert sorted == [sorted[0]] + sorted[1..];
      LowerBoundKept(FinishKey(sorted[0]), d, sorted[1..], rest);
      ConsSorted(sorted[0], rest);
      [sorted[0]] + rest
  }

  /** An element no greater than the head of a sorted sequence extends it. */
  lemma ConsSorted(x: RawDriver, s: seq<RawDriver>)
    requires SortedByFinish(s)
    requires s != [] ==> FinishKey(x) <= FinishKey(s[0])
    ensures SortedByFinish([x] + s)
  {
    var r := [x] + s;
    forall i, j | 0 <= i < j < |r| ensures FinishKey(r[i]) <= FinishKey(r[j]) {
      if i == 0 {
        assert r[j] == s[j - 1];
      } else {
        assert r[i] == s[i - 1] && r[j] == s[j - 1];
      }
    }
  }

  /** A key bound shared by `d` and by every element of `tail` holds for
      every element of a permutation of `tail` with `d` added. */
  lemma LowerBoundKept(lo: int, d: RawDriver, tail: seq<RawDriver>, rest: seq<RawDriver>)
    requires lo <= FinishKey(d)
    requires forall k :: 0 <= k < |tail| ==> lo <= FinishKey(tail[k])
    requires multiset(rest) == multiset(tail) + multiset{d}
    ensures forall k :: 0 <= k < |rest| ==> lo <= FinishKey(rest[k])
  {
    forall k | 0 <= k < |rest| ensures lo <= FinishKey(rest[k]) {
      assert rest[k] in multiset(rest);
      if rest[k] != d {
        assert rest[k] in multiset(tail);
      }
    }
  }

  /** The stable sort of a copy of the results by finishing position. */
  function SortByFinish(drivers: seq<RawDriver>): (r: seq<RawDriver>)
    ensures SortedByFinish(r)
    ensures multiset(r) == multiset(drivers)
  {
    if drivers == [] then []
    else
      assert drivers == [drivers[0]] + drivers[1..];
      Insert(drivers[0], SortByFinish(drivers[1..]))
  }

  // ---------------------------------------------------------------------
  // The podium and the summary

  /** One driver's podium entry (the body of `drivers.map`). */
  function ToPodiumEntry(d: RawDriver): (p: PodiumEntry)
    ensures d.finishPosition.Some? && d.finishPosition.value != -1 ==> p.position == d.finishPosition.value + 1
    ensures d.finishPosition.None? || d.finishPosition.value == -1 ==> p.position == 0
    ensures p.marginRaw >= 0.0
    ensures p.marginRaw > 0.0 <==> d.interval.Some? && d.interval.value > 0
    ensures p.marginRaw > 0.0 ==> p.marginRaw * TicksPerSecond == d.interval.value as real
    ensures p.bestLap == TimeToSeconds(d.bestLapTime)
    ensures p.lapsComplete == d.lapsComplete.GetOr(0) && p.points == d.champPoints.GetOr(0)
    ensures p.driverName != []
    ensures d.displayName.Some? && d.displayName.value != [] ==> p.driverName == d.displayName.value
    ensures d.displayName.None? || d.displayName.value == [] ==> p.driverName == UnknownDriver
  {
    var marginSec := if d.interval.Some? && d.interval.value != 0 && d.interval.value > 0
                     then d.interval.value as real / TicksPerSecond else 0.0;
    var position := if d.finishPosition.None? || d.finishPosition.value + 1 == 0 then 0
                    else d.finishPosition.value + 1;
    PodiumEntry(
      position,
      d.lapsComplete.GetOr(0),
      marginSec,
      if d.displayName.None? || d.displayName.value == [] then UnknownDriver else d.displayName.value,
      d.champPoints.GetOr(0),
      TimeToSeconds(d.bestLapTime))
  }

  function ToPodium(drivers: seq<RawDriver>): (podium: seq<PodiumEntry>)
    ensures |podium| == |drivers|
    ensures forall i :: 0 <= i < |drivers| ==> podium[i] == ToPodiumEntry(drivers[i])
  {
    seq(|drivers|, i requires 0 <= i < |drivers| => ToPodiumEntry(drivers[i]))
  }

  /** `detailed.session_results?.find(...)`. */
  function RaceSessionOf(doc: RawDocument): (r: Option<RawSession>)
    ensures r.Some? <==> (doc.sessionResults.Some? &&
      exists i :: 0 <= i < |doc.sessionResults.value| && IsRaceSession(doc.sessionResults.value[i]))
    ensures r.Some? ==> IsRaceSession(r.value) && r.value in doc.sessionResults.value
    ensures r.Some? ==> exists i :: 0 <= i < |doc.sessionResults.value| && doc.sessionResults.value[i] == r.value
                           && forall j :: 0 <= j < i ==> !IsRaceSession(doc.sessionResults.value[j])
  {
    if doc.sessionResults.None? then None else FindRaceSession(doc.sessionResults.value)
  }

  /** `raceSession?.strength_of_field ?? detailed.event_strength_of_field ?? 0`. */
  function StrengthOfField(doc: RawDocument): (sof: int)
    ensures RaceSessionOf(doc).Some? && RaceSessionOf(doc).value.strengthOfField.Some? ==>
              sof == RaceSessionOf(doc).value.strengthOfField.value
    ensures (RaceSessionOf(doc).None? || RaceSessionOf(doc).value.strengthOfField.None?) ==>
              sof == doc.eventStrengthOfField.GetOr(0)
  {
    var rs := RaceSessionOf(doc);
    if rs.Some? && rs.value.strengthOfField.Some? then rs.value.strengthOfField.value
    else doc.eventStrengthOfField.GetOr(0)
  }

  /** `detailed.weather?.track_water > 0`. */
  function IsWet(doc: RawDocument): bool {
    doc.weather.Some? && doc.weather.value.trackWater.Some? && doc.weather.value.trackWater.value > 0
  }

  /** The sun by default; the race session's sky when it has weather data and the race is dry. */
  function WeatherCondition(doc: RawDocument): (sky: Sky)
    ensures IsWet(doc) || ParseSessionWeather(RaceSessionOf(doc)).None? ==> sky == Clear
    ensures !IsWet(doc) && ParseSessionWeather(RaceSessionOf(doc)).Some? ==>
              sky == ParseSessionWeather(RaceSessionOf(doc)).value.conditionEmoji
  {
    var rs := RaceSessionOf(doc);
    if rs.Some? then
      var w := ParseSessionWeather(rs);
      if w.Some? && !IsWet(doc) then w.value.conditionEmoji else Clear
    else Clear
  }

  /** The podium: empty without a race session or without its `results`,
      otherwise the results sorted from a copy and mapped entry by entry. */
  function PodiumOf(doc: RawDocument): seq<PodiumEntry> {
    var raceSession := RaceSessionOf(doc);
    if raceSession.None? || raceSession.value.results.None? then []
    else ToPodium(SortByFinish(raceSession.value.results.value))
  }

  /** `parseDetailedResult(detailed)`: `null` only for an absent document. */
  function ParseDetailed(detailed: Option<RawDocument>): (r: Option<RaceSummary>)
    ensures r.None? <==> detailed.None?
    ensures r.Some? ==>
      var doc, s := detailed.value, r.value;
      && (s.startTime.Some? <==> doc.startTime.Some? && doc.startTime.value != [])
      && (s.startTime.Some? ==> s.startTime == doc.startTime)
      && s.trackName != []
      && (doc.track.Some? && doc.track.value.trackName.Some? && doc.track.value.trackName.value != [] ==>
            s.trackName == doc.track.value.trackName.value)
      && (doc.track.None? || doc.track.value.trackName.None? || doc.track.value.trackName.value == [] ==>
            s.trackName == UnknownTrack)
      && s.raceWeek == (if doc.raceWeekNum.Some? then doc.raceWeekNum.value + 1 else 1)
      && s.lapCount == (if doc.raceSummary.Some? then doc.raceSummary.value.lapsComplete.GetOr(0) else 0)
      && s.gridSize == doc.numDrivers.GetOr(0)
      && (s.isWet <==> doc.weather.Some? && doc.weather.value.trackWater.Some? && doc.weather.value.trackWater.value > 0)
      && s.sof == StrengthOfField(doc)
      && s.weatherCondition == WeatherCondition(doc)
      && s.podium == PodiumOf(doc)
  {
    if detailed.None? then None
    else
      var doc := detailed.value;
      var startTime := if doc.startTime.None? || doc.startTime.value == [] then None else doc.startTime;
      var trackName := if doc.track.None? || doc.track.value.trackName.None? || doc.track.value.trackName.value == []
                       then UnknownTrack else doc.track.value.trackName.value;
      var raceWeek := if doc.raceWeekNum.Some? then doc.raceWeekNum.value + 1 else 1;
      var lapCount := if doc.raceSummary.None? then 0 else doc.raceSummary.value.lapsComplete.GetOr(0);
      var gridSize := doc.numDrivers.GetOr(0);
      Some(RaceSummary(startTime, trackName, IsWet(doc), raceWeek, lapCount, gridSize,
                       StrengthOfField(doc), PodiumOf(doc), WeatherCondition(doc)))
  }

  // ---------------------------------------------------------------------
  // Properties

  /** Without a race session, or with one that has no `results`, the podium is empty. */
  lemma NoRaceSessionNoPodium(doc: RawDocument)
    requires RaceSessionOf(doc).None? || RaceSessionOf(doc).value.results.None?
    ensures ParseDetailed(Some(doc)).Some? && ParseDetailed(Some(doc)).value.podium == []
  {
  }

  /** Otherwise the podium is the race session's results, sorted ascending by
      finishing position from a copy (the same entries, each exactly as often
      as in the input), each mapped to its podium entry. */
  lemma PodiumIsSortedResults(doc: RawDocument)
    requires RaceSessionOf(doc).Some? && RaceSessionOf(doc).value.results.Some?
    ensures var results := RaceSessionOf(doc).value.results.value;
      var podium := PodiumOf(doc);
      exists sorted: seq<RawDriver> ::
        && SortedByFinish(sorted)
        && multiset(sorted) == multiset(results)
        && |podium| == |results| == |sorted|
        && (forall i :: 0 <= i < |sorted| ==> podium[i] == ToPodiumEntry(sorted[i]))
  {
    var results := RaceSessionOf(doc).value.results.value;
    var sorted := SortByFinish(results);
    assert |sorted| == |multiset(sorted)| == |multiset(results)| == |results|;
  }

  /** When every finishing position is present and non-negative, the podium
      positions are the 1-based finishing positions of the results (each as
      often as it occurs there), in ascending order. */
  lemma PodiumPositions(doc: RawDocument)
    requires RaceSessionOf(doc).Some? && RaceSessionOf(doc).value.results.Some?
    requires var results := RaceSessionOf(doc).value.results.value;
      forall i :: 0 <= i < |results| ==> results[i].finishPosition.Some? && results[i].finishPosition.value >= 0
    ensures var podium := PodiumOf(doc);
      && (forall i :: 0 <= i < |podium| ==> podium[i].position >= 1)
      && (forall i, j :: 0 <= i < j < |podium| ==> podium[i].position <= podium[j].position)
      && multiset(Positions(podium)) == multiset(OneBasedPositions(RaceSessionOf(doc).value.results.value))
  {
    var results := RaceSessionOf(doc).value.results.value;
    assert PodiumOf(doc) == ToPodium(SortByFinish(results));
    SortedPodiumPositions(results);
  }

  lemma SortedPodiumPositions(results: seq<RawDriver>)
    requires forall i :: 0 <= i < |results| ==> results[i].finishPosition.Some? && results[i].finishPosition.value >= 0
    ensures var podium := ToPodium(SortByFinish(results));
      && (forall i :: 0 <= i < |podium| ==> podium[i].position >= 1)
      && (forall i, j :: 0 <= i < j < |podium| ==> podium[i].position <= podium[j].position)
      && multiset(Positions(podium)) == multiset(OneBasedPositions(results))
  {
    var sorted := SortByFinish(results);
    var podium := ToPodium(sorted);
    PresentPositions(results, sorted);
    assert Positions(podium) == OneBasedPositions(sorted) by {
      forall i | 0 <= i < |sorted| ensures Positions(podium)[i] == OneBasedPositions(sorted)[i] {
        OneBasedPositionAt(sorted, i);
      }
    }
    OneBasedPositionsPermute(sorted, results);
  }

  /** A permutation of drivers whose finish positions are all present and
      non-negative has the same property, and each of its podium entries is
      one place after the driver's finish key. */
  lemma {:induction false} PresentPositions(results: seq<RawDriver>, sorted: seq<RawDriver>)
    requires forall i :: 0 <= i < |results| ==> results[i].finishPosition.Some? && results[i].finishPosition.value >= 0
    requires multiset(sorted) == multiset(results)
    ensures forall i :: 0 <= i < |sorted| ==> sorted[i].finishPosition.Some? && sorted[i].finishPosition.value >= 0
    ensures forall i :: 0 <= i < |sorted| ==> ToPodium(sorted)[i].position == FinishKey(sorted[i]) + 1
  {
    forall i | 0 <= i < |sorted|
      ensures sorted[i].finishPosition.Some? && sorted[i].finishPosition.value >= 0
    {
      assert sorted[i] in multiset(sorted);
      assert sorted[i] in multiset(results);
    }
  }

  function Positions(podium: seq<PodiumEntry>): (r: seq<int>)
    ensures |r| == |podium|
  {
    seq(|podium|, i requires 0 <= i < |podium| => podium[i].position)
  }

  /** `finish_position + 1` of each driver, the missing ones counted as 0. */
  function OneBasedPositions(drivers: seq<RawDriver>): (r: seq<int>)
    ensures |r| == |drivers|
  {
    if drivers == [] then [] else [FinishKey(drivers[0]) + 1] + OneBasedPositions(drivers[1..])
  }

  lemma {:induction false} OneBasedPositionAt(d: seq<RawDriver>, i: nat)
    requires i < |d|
    ensures OneBasedPositions(d)[i] == FinishKey(d[i]) + 1
  {
    if i > 0 {
      OneBasedPositionAt(d[1..], i - 1);
    }
  }

  lemma {:induction false} OneBasedPositionsAppend(x: seq<RawDriver>, y: seq<RawDriver>)
    ensures OneBasedPositions(x + y) == OneBasedPositions(x) + OneBasedPositions(y)
  {
    if x == [] {
      assert x + y == y;
    } else {
      var xy := x + y;
      assert xy[1..] == x[1..] + y && xy[0] == x[0];
      OneBasedPositionsAppend(x[1..], y);
      var k, p, q := FinishKey(x[0]) + 1, OneBasedPositions(x[1..]), OneBasedPositions(y);
      assert OneBasedPositions(xy) == [k] + (p + q);
      assert OneBasedPositions(x) == [k] + p;
      assert [k] + (p + q) == [k] + p + q;
    }
  }

  /** Where the first element of `a` sits in its permutation `b`, and what
      is left of both once it is taken out. */
  lemma TakeOutFirst(a: seq<RawDriver>, b: seq<RawDriver>) returns (k: nat)
    requires a != [] && multiset(a) == multiset(b)
    ensures k < |b| && b[k] == a[0]
    ensures multiset(a[1..]) == multiset(b[..k] + b[k + 1..])
  {
    var x := a[0];
    assert x in multiset(b) by { assert x in multiset(a); }
    k :| 0 <= k < |b| && b[k] == x;
    assert b == b[..k] + [x] + b[k + 1..];
    assert a == [x] + a[1..];
    assert multiset(a[1..]) == multiset(a) - multiset{x};
    assert multiset(b[..k] + b[k + 1..]) == multiset(b) - multiset{x};
  }

  lemma {:induction false} OneBasedPositionsAt(b: seq<RawDriver>, k: nat)
    requires k < |b|
    ensures OneBasedPositions(b) == OneBasedPositions(b[..k]) + [FinishKey(b[k]) + 1] + OneBasedPositions(b[k + 1..])
    ensures OneBasedPositions(b[..k] + b[k + 1..]) == OneBasedPositions(b[..k]) + OneBasedPositions(b[k + 1..])
  {
    var post := b[k + 1..];
    assert b == b[..k] + ([b[k]] + post);
    OneBasedPositionsAppend(b[..k], [b[k]] + post);
    OneBasedPositionsAppend(b[..k], post);
    assert ([b[k]] + post)[0] == b[k] && ([b[k]] + post)[1..] == post;
    var p, kx, q := OneBasedPositions(b[..k]), FinishKey(b[k]) + 1, OneBasedPositions(post);
    assert OneBasedPositions([b[k]] + post) == [kx] + q;
    assert p + ([kx] + q) == p + [kx] + q;
  }

  lemma {:induction false} OneBasedPositionsPermute(a: seq<RawDriver>, b: seq<RawDriver>)
    requires multiset(a) == multiset(b)
    ensures multiset(OneBasedPositions(a)) == multiset(OneBasedPositions(b))
  {
    if a == [] {
      assert |b| == |multiset(b)| == 0;
      assert b == [];
    } else {
      var k := TakeOutFirst(a, b);
      OneBasedPositionsPermute(a[1..], b[..k] + b[k + 1..]);
      OneBasedPositionsAt(b, k);
      var kx := FinishKey(a[0]) + 1;
      assert OneBasedPositions(a) == [kx] + OneBasedPositions(a[1..]);
      var p, q := OneBasedPositions(b[..k]), OneBasedPositions(b[k + 1..]);
      InsertIntoPermutation(OneBasedPositions(a[1..]), p, kx, q);
      assert OneBasedPositions(b) == p + [kx] + q;
    }
  }

  lemma InsertIntoPermutation(x: seq<int>, p: seq<int>, v: int, q: seq<int>)
    requires multiset(x) == multiset(p + q)
    ensures multiset([v] + x) == multiset(p + [v] + q)
  {
    assert multiset(p + [v] + q) == multiset(p) + multiset{v} + multiset(q);
  }

  /** A driver's margin is below one second exactly when its raw interval is
      absent, not positive, or under 10000 ticks. */
  lemma MarginBelowOneSecond(d: RawDriver)
    ensures ToPodiumEntry(d).marginRaw < 1.0 <==>
      d.interval.None? || d.interval.value <= 0 || d.interval.value < 10000
  {
  }

  /** The margin examples: 15000 ticks are 1.5 s; an absent or zero interval is 0. */
  lemma MarginExamples(d: RawDriver)
    ensures d.interval == Some(15000) ==> ToPodiumEntry(d).marginRaw == 1.5
    ensures d.interval == None || d.interval == Some(0) ==> ToPodiumEntry(d).marginRaw == 0.0
  {
  }
}
