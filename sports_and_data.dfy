/** The running-analytics panel: the HH:MM:SS time format, the GPX path of a
    race, the event-label lookups behind the chart axes, the sampled
    projection series and the select/deselect state of the race cards. */
module SportsAndData {
  import opened Common
  import opened GpxParser

  // ---------------------------------------------------------------------
  // formatTime

  /** `s.padStart(width, fill)`. */
  function PadStart(s: string, width: nat, fill: char): (r: string)
    ensures |r| == if |s| >= width then |s| else width
    ensures r[|r| - |s|..] == s
    ensures forall i :: 0 <= i < |r| - |s| ==> r[i] == fill
    decreases width - |s|
  {
    if |s| >= width then s else PadStart([fill] + s, width, fill)
  }

  /** A whole number written with at least two digits. */
  function Pad2(n: nat): string {
    PadStart(NatToString(n), 2, '0')
  }

  /** `formatTime(seconds)` for a whole, non-negative number of seconds. */
  function FormatTime(seconds: nat): string {
    Pad2(seconds / 3600) + ":" + Pad2(seconds % 3600 / 60) + ":" + Pad2(seconds % 60)
  }

  /** The three fields split the seconds exactly, minutes and seconds below 60. */
  lemma TimeFields(s: nat)
    ensures (s / 3600) * 3600 + (s % 3600 / 60) * 60 + s % 60 == s
    ensures s % 3600 / 60 < 60 && s % 60 < 60
  {
    assert s % 3600 == (s % 3600 / 60) * 60 + s % 60;
  }

  lemma {:induction false} LeadingZeros(z: string, s: string)
    requires AllDigits(s) && forall i :: 0 <= i < |z| ==> z[i] == '0'
    ensures AllDigits(z + s) && DigitsValue(z + s) == DigitsValue(s)
  {
    if s == [] {
      ZerosValue(z);
      assert z + s == z;
    } else {
      LeadingZeros(z, s[..|s| - 1]);
      assert (z + s)[..|z + s| - 1] == z + s[..|s| - 1];
    }
  }

  lemma {:induction false} ZerosValue(z: string)
    requires forall i :: 0 <= i < |z| ==> z[i] == '0'
    ensures AllDigits(z) && DigitsValue(z) == 0
  {
    if z != [] {
      ZerosValue(z[..|z| - 1]);
    }
  }

  /** Padding a digit string with zeros keeps it a digit string of the same value. */
  lemma PadStartValue(s: string, width: nat)
    requires AllDigits(s)
    ensures AllDigits(PadStart(s, width, '0')) && DigitsValue(PadStart(s, width, '0')) == DigitsValue(s)
  {
    var p := PadStart(s, width, '0');
    var z := p[..|p| - |s|];
    assert p == z + s;
    LeadingZeros(z, s);
  }

  /** A padded field is all digits and reads back as its number. */
  lemma Pad2Value(n: nat)
    ensures AllDigits(Pad2(n)) && DigitsValue(Pad2(n)) == n
  {
    NatToStringValue(n);
    PadStartValue(NatToString(n), 2);
  }

  /** A padded field has exactly two digits below 100, three from 100 to 999. */
  lemma Pad2Length(n: nat)
    ensures |Pad2(n)| >= 2 && (n < 100 <==> |Pad2(n)| == 2)
    ensures 100 <= n < 1000 ==> |Pad2(n)| == 3
  {
    assert Pow10(1) == 10 && Pow10(2) == 100 && Pow10(3) == 1000;
    if 10 <= n < 100 {
      NatToStringLength(n, 2);
    } else if 100 <= n < 1000 {
      NatToStringLength(n, 3);
    } else if n >= 1000 {
      NatToStringBound(n);
    }
  }

  /** Reads an `HH:MM:SS` string (hours of two or more digits) back into seconds. */
  function ParseHms(t: string): Option<nat> {
    if |t| >= 8 && t[|t| - 3] == ':' && t[|t| - 6] == ':'
       && AllDigits(t[..|t| - 6]) && AllDigits(t[|t| - 5..|t| - 3]) && AllDigits(t[|t| - 2..])
    then Some(DigitsValue(t[..|t| - 6]) * 3600 + DigitsValue(t[|t| - 5..|t| - 3]) * 60 + DigitsValue(t[|t| - 2..]))
    else None
  }

  lemma Joined(h: string, m: string, c: string)
    requires |m| == 2 && |c| == 2
    ensures var t := h + ":" + m + ":" + c;
      && |t| == |h| + 6 && t[|t| - 3] == ':' && t[|t| - 6] == ':'
      && t[..|t| - 6] == h && t[|t| - 5..|t| - 3] == m && t[|t| - 2..] == c
  {
  }

  /** The layout of `formatTime`: two colons, each field all digits, minutes
      and seconds of exactly two. */
  lemma FormatTimeLayout(s: nat)
    ensures var t := FormatTime(s);
      && |t| >= 8 && t[|t| - 3] == ':' && t[|t| - 6] == ':'
      && t[..|t| - 6] == Pad2(s / 3600)
      && t[|t| - 5..|t| - 3] == Pad2(s % 3600 / 60)
      && t[|t| - 2..] == Pad2(s % 60)
  {
    var hours, minutes, secs := s / 3600, s % 3600 / 60, s % 60;
    HoursBounds(s);
    FieldsLayout(hours, minutes, secs);
    assert FormatTime(s) == Pad2(hours) + ":" + Pad2(minutes) + ":" + Pad2(secs);
  }

  /** Hours are not capped: below 100 hours the text has 8 characters, from
      100 hours on the first field grows to 3 digits. */
  lemma FormatTimeLength(s: nat)
    ensures |FormatTime(s)| == 8 <==> s < 360000
    ensures 360000 <= s < 3600000 ==> |FormatTime(s)| == 9
  {
    var hours, minutes, secs := s / 3600, s % 3600 / 60, s % 60;
    HoursBounds(s);
    FieldsLength(hours, minutes, secs);
    assert FormatTime(s) == Pad2(hours) + ":" + Pad2(minutes) + ":" + Pad2(secs);
  }

  lemma FieldsLayout(hours: nat, minutes: nat, secs: nat)
    requires minutes < 60 && secs < 60
    ensures var t := Pad2(hours) + ":" + Pad2(minutes) + ":" + Pad2(secs);
      && |t| >= 8 && t[|t| - 3] == ':' && t[|t| - 6] == ':'
      && t[..|t| - 6] == Pad2(hours)
      && t[|t| - 5..|t| - 3] == Pad2(minutes)
      && t[|t| - 2..] == Pad2(secs)
  {
    Pad2Length(minutes);
    Pad2Length(secs);
    Pad2Length(hours);
    Joined(Pad2(hours), Pad2(minutes), Pad2(secs));
  }

  lemma FieldsLength(hours: nat, minutes: nat, secs: nat)
    requires minutes < 60 && secs < 60
    ensures var t := Pad2(hours) + ":" + Pad2(minutes) + ":" + Pad2(secs);
      && (|t| == 8 <==> hours < 100)
      && (100 <= hours < 1000 ==> |t| == 9)
  {
    Pad2Length(minutes);
    Pad2Length(secs);
    Pad2Length(hours);
  }

  lemma HoursBounds(s: nat)
    ensures s % 3600 / 60 < 60 && s % 60 < 60
    ensures s / 3600 < 100 <==> s < 360000
    ensures 360000 <= s < 3600000 <==> 100 <= s / 3600 < 1000
  {
  }

  /** `formatTime` loses nothing: reading its output back gives the seconds. */
  lemma FormatTimeRoundTrip(s: nat)
    ensures ParseHms(FormatTime(s)) == Some(s)
  {
    var hours, minutes, secs := s / 3600, s % 3600 / 60, s % 60;
    var h, m, c := Pad2(hours), Pad2(minutes), Pad2(secs);
    assert HmsLayout(FormatTime(s), h, m, c) by {
      FormatTimeLayout(s);
    }
    assert |h| >= 2 && AllDigits(h) && AllDigits(m) && AllDigits(c) by {
      Pad2Length(hours);
      Pad2Value(hours);
      Pad2Value(minutes);
      Pad2Value(secs);
    }
    assert DigitsValue(h) * 3600 + DigitsValue(m) * 60 + DigitsValue(c) == s by {
      Pad2Value(hours);
      Pad2Value(minutes);
      Pad2Value(secs);
      TimeFields(s);
    }
    ParseFields(FormatTime(s), h, m, c, s);
  }

  /** t is the fields h, m and c joined by colons, m and c of two characters. */
  predicate HmsLayout(t: string, h: string, m: string, c: string) {
    |t| == |h| + 6 && t[|t| - 3] == ':' && t[|t| - 6] == ':'
    && t[..|t| - 6] == h && t[|t| - 5..|t| - 3] == m && t[|t| - 2..] == c
  }

  /** A text laid out as HH:MM:SS reads back as its fields' values. */
  lemma ParseFields(t: string, h: string, m: string, c: string, total: nat)
    requires |h| >= 2 && AllDigits(h) && AllDigits(m) && AllDigits(c)
    requires HmsLayout(t, h, m, c)
    requires DigitsValue(h) * 3600 + DigitsValue(m) * 60 + DigitsValue(c) == total
    ensures ParseHms(t) == Some(total)
  {
  }

  // ---------------------------------------------------------------------
  // The GPX path of a race

  predicate OccursAt(s: string, pat: string, k: nat) {
    k + |pat| <= |s| && s[k..k + |pat|] == pat
  }

  /** The first occurrence of pat in s at or after position from. */
  function FindFrom(s: string, pat: string, from: nat): (r: Option<nat>)
    ensures r.Some? ==> from <= r.value && OccursAt(s, pat, r.value)
    ensures r.Some? ==> forall j :: from <= j < r.value ==> !OccursAt(s, pat, j)
    ensures r.None? ==> forall j :: from <= j ==> !OccursAt(s, pat, j)
    decreases |s| - from
  {
    if from + |pat| > |s| then None
    else if OccursAt(s, pat, from) then Some(from)
    else FindFrom(s, pat, from + 1)
  }

  /** JavaScript `s.replace(pat, rep)` with a string pattern: only the first
      occurrence is replaced. */
  function ReplaceFirst(s: string, pat: string, rep: string): string {
    match FindFrom(s, pat, 0)
    case None => s
    case Some(k) => s[..k] + rep + s[k + |pat|..]
  }

  lemma ReplaceFirstSpec(s: string, pat: string, rep: string, k: nat)
    ensures (forall j: nat :: !OccursAt(s, pat, j)) ==> ReplaceFirst(s, pat, rep) == s
    ensures OccursAt(s, pat, k) && (forall j: nat :: j < k ==> !OccursAt(s, pat, j))
            ==> ReplaceFirst(s, pat, rep) == s[..k] + rep + s[k + |pat|..]
  {
    var r := FindFrom(s, pat, 0);
    if r.None? {
      assert !OccursAt(s, pat, k);
    }
  }

  /** The `.gpx` file fetched for a card: the public URL followed by the
      card's route path with its first `.json` replaced by `.gpx`. */
  function GpxPath(publicUrl: string, geoJsonPath: string): string {
    publicUrl + ReplaceFirst(geoJsonPath, ".json", ".gpx")
  }

  /** For a route path `<name>.json` whose name has no dot, the GPX path is
      `<name>.gpx` under the public URL. */
  lemma GpxPathOfRoute(publicUrl: string, name: string)
    requires forall i :: 0 <= i < |name| ==> name[i] != '.'
    ensures GpxPath(publicUrl, name + ".json") == publicUrl + name + ".gpx"
  {
    var s := name + ".json";
    forall j: nat | j < |name| ensures !OccursAt(s, ".json", j) {
      assert s[j] == name[j] != '.';
    }
    assert OccursAt(s, ".json", |name|) by { assert s[|name|..|name| + 5] == ".json"; }
    ReplaceFirstSpec(s, ".json", ".gpx", |name|);
    assert s[..|name|] == name;
    assert s[|name| + 5..] == [];
  }

  // ---------------------------------------------------------------------
  // Race records and the event-label lookups

  datatype RunningScore = RunningScore(event: string, time: string, date: string, location: string, geoJsonPath: Option<string>)

  const BestScores: seq<RunningScore> := [
    RunningScore("Marathon", "5:41:46", "2024-10-06", "Long Beach Marathon", Some("/routes/2024-10-06-060140.json")),
    RunningScore("Half Marathon", "2:38:28", "2024-01-21", "Rose Bowl Half Marathon", Some("/routes/2024-01-21-071259.json")),
    RunningScore("10K", "1:06:08", "2024-02-25", "L.A. Chinatown Firecracker 10K", Some("/routes/2024-02-25-084247.json")),
    RunningScore("5K", "30:13", "2024-09-08", "Santa Monica Classic", Some("/routes/2024-09-08-070337.json"))
  ]

  const KnownEvents: seq<string> := ["Marathon", "Half Marathon", "10K", "5K"]

  /** Race distance in meters by event label; 0 for any other label. */
  function TargetDistance(event: string): real {
    if event == "Marathon" then 42195.0
    else if event == "Half Marathon" then 21097.5
    else if event == "10K" then 10000.0
    else if event == "5K" then 5000.0
    else 0.0
  }

  /** Only the four known labels have a distance, each positive; a half
      marathon is exactly half a marathon; every race on the page is known. */
  lemma TargetDistanceKnown(event: string)
    ensures TargetDistance(event) > 0.0 <==> event in KnownEvents
    ensures TargetDistance(event) == 0.0 <==> event !in KnownEvents
    ensures 2.0 * TargetDistance("Half Marathon") == TargetDistance("Marathon")
    ensures forall i :: 0 <= i < |BestScores| ==> BestScores[i].event in KnownEvents
  {
  }

  /** Number of elapsed-time ticks. */
  function XTickCount(event: string): nat {
    if event == "Marathon" then 13
    else if event == "Half Marathon" then 7
    else if event == "10K" then 8
    else if event == "5K" then 8
    else 13
  }

  /** Seconds between elapsed-time ticks. */
  function XTickStep(event: string): nat {
    if event == "Marathon" then 1800
    else if event == "Half Marathon" then 1800
    else if event == "10K" then 600
    else if event == "5K" then 300
    else 1800
  }

  function XTickVals(event: string): seq<nat> {
    seq(XTickCount(event), i => i * XTickStep(event))
  }

  /** The label of each elapsed-time tick: `formatTime` of the same value. */
  function XTickText(event: string): seq<string> {
    var vals := XTickVals(event);
    seq(|vals|, i requires 0 <= i < |vals| => FormatTime(vals[i]))
  }

  /** Upper bound, in seconds, of the projected-finish axis. */
  function Y2Range(event: string): nat {
    if event == "Marathon" then 21600
    else if event == "Half Marathon" then 10800
    else if event == "10K" then 4500
    else if event == "5K" then 2100
    else 21600
  }

  /** `i * (range / 4)`: each range is a multiple of 4, so the division is exact. */
  function Y2TickVals(event: string): seq<nat> {
    seq(5, i => i * (Y2Range(event) / 4))
  }

  function Y2TickText(event: string): seq<string> {
    var vals := Y2TickVals(event);
    seq(|vals|, i requires 0 <= i < |vals| => FormatTime(vals[i]))
  }

  /** Tick labels made by `formatTime` read back to their tick values. */
  lemma LabelsReadBack(vals: seq<nat>, text: seq<string>)
    requires |vals| == |text|
    requires forall i :: 0 <= i < |text| ==> text[i] == FormatTime(vals[i])
    ensures forall i :: 0 <= i < |text| ==> ParseHms(text[i]) == Some(vals[i])
  {
    forall i | 0 <= i < |text| ensures ParseHms(text[i]) == Some(vals[i]) {
      FormatTimeRoundTrip(vals[i]);
    }
  }

  /** The elapsed-time axis: evenly spaced ticks from 0 (6 h in 30 min steps
      for a marathon or an unknown label, 3 h in 30 min steps for a half,
      70 min in 10 min steps for a 10K, 35 min in 5 min steps for a 5K),
      never beyond the projected-finish axis range. */
  lemma XTickValues(event: string)
    ensures |XTickVals(event)| == XTickCount(event) >= 7
    ensures XTickVals(event)[0] == 0
    ensures forall i :: 0 < i < |XTickVals(event)| ==> XTickVals(event)[i] == XTickVals(event)[i - 1] + XTickStep(event)
    ensures var last := XTickVals(event)[XTickCount(event) - 1];
      last == (if event == "Half Marathon" then 10800 else if event == "10K" then 4200
               else if event == "5K" then 2100 else 21600)
      && last <= Y2Range(event)
  {
  }

  /** Each elapsed-time label is the `formatTime` of its tick and reads back to it. */
  lemma XTickLabels(event: string)
    ensures |XTickText(event)| == |XTickVals(event)|
    ensures forall i :: 0 <= i < |XTickText(event)| ==>
      XTickText(event)[i] == FormatTime(XTickVals(event)[i]) && ParseHms(XTickText(event)[i]) == Some(XTickVals(event)[i])
  {
    LabelsReadBack(XTickVals(event), XTickText(event));
  }

  /** The projected-finish axis: five ticks splitting [0, range] into
      quarters, the last one equal to the range's upper bound. */
  lemma Y2TickValues(event: string)
    ensures Y2Range(event) % 4 == 0
    ensures |Y2TickVals(event)| == 5
    ensures Y2TickVals(event)[0] == 0 && Y2TickVals(event)[4] == Y2Range(event)
    ensures forall i :: 0 < i < 5 ==> 4 * (Y2TickVals(event)[i] - Y2TickVals(event)[i - 1]) == Y2Range(event)
  {
    var q := Y2Range(event) / 4;
    assert 4 * q == Y2Range(event);
    assert Y2TickVals(event) == [0, q, 2 * q, 3 * q, 4 * q];
  }

  /** Each projected-finish label is the `formatTime` of its tick and reads back to it. */
  lemma Y2TickLabels(event: string)
    ensures |Y2TickText(event)| == |Y2TickVals(event)|
    ensures forall i :: 0 <= i < |Y2TickText(event)| ==>
      Y2TickText(event)[i] == FormatTime(Y2TickVals(event)[i]) && ParseHms(Y2TickText(event)[i]) == Some(Y2TickVals(event)[i])
  {
    LabelsReadBack(Y2TickVals(event), Y2TickText(event));
  }

  // ---------------------------------------------------------------------
  // The projection series

  /** One projected finish time, `target / (distance / elapsed)`; floating
      division is not modelled, so the value is kept as its operands. */
  datatype Projected = Projected(target: real, distance: JsNumber, elapsed: JsNumber)

  /** `(new Date(t).getTime() - startTime) / 1000` with timestamps as whole
      seconds; an unreadable timestamp is NaN. */
  function Elapsed(start: Option<int>, t: Option<int>): (r: JsNumber)
    ensures r.Finite? <==> start.Some? && t.Some?
  {
    if start.Some? && t.Some? then Finite((t.value - start.value) as real) else NaN
  }

  /** The sampled projection: one entry for each index that is a multiple
      of 50, in increasing order, for both series. */
  ghost predicate IsSampled(points: seq<GpxPoint>, distances: seq<JsNumber>, stamp: string -> Option<int>,
                            start: Option<int>, target: real, times: seq<JsNumber>, finish: seq<Projected>)
  {
    && |points| <= |distances|
    && |times| == |finish| == (|points| + 49) / 50
    && forall k :: 0 <= k < |times| ==>
         && 50 * k < |points|
         && times[k] == Elapsed(start, stamp(points[50 * k].time))
         && finish[k] == Projected(target, distances[50 * k], times[k])
  }

  /** The `reduce` of `handleCardClick` that samples every 50th point. */
  method SampleProjection(points: seq<GpxPoint>, distances: seq<JsNumber>, stamp: string -> Option<int>,
                          start: Option<int>, target: real)
    returns (times: seq<JsNumber>, finishTimes: seq<Projected>)
    requires |points| <= |distances|
    ensures IsSampled(points, distances, stamp, start, target, times, finishTimes)
  {
    times, finishTimes := [], [];
    var i := 0;
    while i < |points|
      invariant 0 <= i <= |points|
      invariant |times| == |finishTimes| == (i + 49) / 50
      invariant forall k :: 0 <= k < |times| ==>
         && 50 * k < i
         && times[k] == Elapsed(start, stamp(points[50 * k].time))
         && finishTimes[k] == Projected(target, distances[50 * k], times[k])
    {
      if i == 0 || i % 50 == 0 {
        var timeDiff := Elapsed(start, stamp(points[i].time));
        times := times + [timeDiff];
        finishTimes := finishTimes + [Projected(target, distances[i], timeDiff)];
      }
      i := i + 1;
    }
  }

  /** The stride keeps exactly the indices below n that are multiples of 50. */
  lemma StrideKeepsMultiplesOf50(n: nat, i: nat)
    ensures i < n && i % 50 == 0 ==> i / 50 < (n + 49) / 50 && 50 * (i / 50) == i
    ensures i < (n + 49) / 50 ==> 50 * i < n
  {
  }

  // ---------------------------------------------------------------------
  // Card selection

  /** The four series the chart draws. */
  datatype RunningData = RunningData(time: seq<JsNumber>, distance: seq<JsNumber>,
                                     predictedTime: seq<JsNumber>, predictedFinish: seq<Projected>)

  const EmptyData := RunningData([], [], [], [])

  function Points(trkpts: seq<Trkpt>): seq<GpxPoint> {
    seq(|trkpts|, i requires 0 <= i < |trkpts| => ToPoint(trkpts[i]))
  }

  /** The series computed from a non-empty track for a race of the given
      target distance. */
  ghost predicate IsLoaded(d: RunningData, points: seq<GpxPoint>, hav: Haversine, stamp: string -> Option<int>, target: real) {
    && points != []
    && |d.time| == |points|
    && (forall i :: 0 <= i < |points| ==> d.time[i] == Elapsed(stamp(points[0].time), stamp(points[i].time)))
    && IsCumulative(hav, points, d.distance)
    && IsSampled(points, d.distance, stamp, stamp(points[0].time), target, d.predictedTime, d.predictedFinish)
  }

  /** The state of the panel: the selected card and the chart series. */
  class RunningPanel {
    var selectedCardIndex: Option<nat>
    var runningData: RunningData

    constructor ()
      ensures selectedCardIndex == None && runningData == EmptyData
    {
      selectedCardIndex := None;
      runningData := EmptyData;
    }

    /** A click on card `index`. Clicking the selected card deselects it and
        empties the series; clicking another card with a route selects it,
        fetches its GPX file (`fetchGpx` gives the track points read from the
        file at a path, or None when fetching or reading fails) and, for a
        non-empty track, replaces the series; a card without a route does
        nothing. `requested` is the path fetched, if any. */
    method HandleCardClick(index: nat, geoJsonPath: Option<string>, publicUrl: string,
                           fetchGpx: string -> Option<seq<Trkpt>>, stamp: string -> Option<int>, hav: Haversine)
      returns (requested: Option<string>)
      requires index < |BestScores|
      modifies this
      ensures geoJsonPath.None? || geoJsonPath.value == [] ==>
        requested == None && selectedCardIndex == old(selectedCardIndex) && runningData == old(runningData)
      ensures geoJsonPath.Some? && geoJsonPath.value != [] && old(selectedCardIndex) == Some(index) ==>
        requested == None && selectedCardIndex == None && runningData == EmptyData
      ensures geoJsonPath.Some? && geoJsonPath.value != [] && old(selectedCardIndex) != Some(index) ==>
        && selectedCardIndex == Some(index)
        && requested == Some(GpxPath(publicUrl, geoJsonPath.value))
        && var loaded := fetchGpx(requested.value);
           if loaded.None? || loaded.value == [] then runningData == old(runningData)
           else IsLoaded(runningData, Points(loaded.value), hav, stamp, TargetDistance(BestScores[index].event))
    {
      requested := None;
      if geoJsonPath.Some? && geoJsonPath.value != [] {
        if selectedCardIndex == Some(index) {
          selectedCardIndex := None;
          runningData := EmptyData;
        } else {
          selectedCardIndex := Some(index);
          var gpxPath := GpxPath(publicUrl, geoJsonPath.value);
          requested := Some(gpxPath);
          var loaded := fetchGpx(gpxPath);
          if loaded.Some? {
            var points := ParseGpx(loaded.value);
            assert points == Points(loaded.value);
            // `points[0].time` throws on an empty track; the error is caught
            // and the series are left as they were.
            if points != [] {
              var distances := CalculateDistance(hav, points);
              var startTime := stamp(points[0].time);
              var target := TargetDistance(BestScores[index].event);
              var times, finishTimes := SampleProjection(points, distances, stamp, startTime, target);
              var time := seq(|points|, i requires 0 <= i < |points| => Elapsed(startTime, stamp(points[i].time)));
              runningData := RunningData(time, distances, times, finishTimes);
            }
          }
        }
      }
    }
  }
}
