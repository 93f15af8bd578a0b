# Portfolio site: GPX tracks, race charts, route maps and skill usages

This project models in Dafny the logic of a personal portfolio web site.
The site has five parts with real logic.

- **GPX track pipeline** (`gpx_parser.dfy`). It reads the `trkpt` elements of a
  GPX 1.1 track into points (latitude, longitude, time). It keeps JavaScript's
  `parseFloat` and its `|| '0'` defaults. It then builds the running sum of
  segment distances. The haversine distance is a function parameter with
  three stated properties: it is never negative, it is 0 from a point to
  itself, and it is symmetric.
- **Race analytics** (`sports_and_data.dfy`). This covers:
  - `formatTime`, with a reader for `HH:MM:SS` so that the round trip can be
    stated;
  - the `.json` to `.gpx` path rewrite;
  - the event-to-distance lookup;
  - the tick tables of both chart axes;
  - the stride-50 sampling of the projected finish time;
  - the card panel that selects and deselects a race and loads its series.
- **GeoJSON route helpers** (`geo_route.dfy`). These follow RFC 7946:
  positions are longitude first (section 3.1.1), a LineString is a list of
  positions (section 3.1.4), and a MultiLineString is a list of lines
  (section 3.1.5). The file also holds line flattening, start and finish
  markers, and the bounding box that `LngLatBounds.extend` grows.
- **Inline route map** (`map_inline.dfy`, class `RouteMap`) and **modal route
  map** (`map_modal.dfy`, class `RouteModal`). These model the bookkeeping of
  the two map components:
  - the tracked markers and the markers on the map;
  - the single `route` source and layer;
  - the fitted views;
  - the inline map's animation frames and its frame requests;
  - cleanup.
- **Skills page** (`skills.dfy`, class `SkillsPage`). Clicking a skill lists
  the projects, then the experience entries, then the teaching entries whose
  skill lists contain it. Each usage gets a type label.

`common.dfy` holds shared pieces:
- `Option`;
- `JsNumber`, a JavaScript number restricted to an exact real or NaN;
- decimal digit strings.

Numbers are exact reals, and NaN is tracked where the source can produce it.

## Model

| member | source | states |
|---|---|---|
| Common.Add | src/utils/gpxParser.ts:40 | JavaScript addition is finite exactly when both operands are; NaN propagates |
| Common.NatToString | src/components/sections/SportsAndData.tsx:28 | `toString()` of a whole number is a non-empty digit string, one digit exactly below 10, with no leading zero |
| Common.NatToStringValue | src/components/sections/SportsAndData.tsx:28 | the decimal string of n reads back as n |
| Common.NatToStringLength | src/components/sections/SportsAndData.tsx:28 | a number with d digits prints as d characters |
| Common.NatToStringBound | src/components/sections/SportsAndData.tsx:28 | n is below 10 to the power of its printed length |
| GpxParser.ParseFloat | src/utils/gpxParser.ts:23-24 | JavaScript `parseFloat`: skips leading white space and reads the longest decimal literal at the head (sign, digits, fraction, exponent), NaN when there is none; the lemmas below state what it gives |
| GpxParser.ToPoint | src/utils/gpxParser.ts:22-27 | one `trkpt` read into a point: `parseFloat` of `lat`/`lon` or of `'0'`, and the time text or `''`; `ToPointDefaults` states the cases |
| GpxParser.ParseFloatOfNat | src/utils/gpxParser.ts:23-24 | `parseFloat` of a printed whole number is that number; in particular the `'0'` default gives 0 |
| GpxParser.ParseFloatOfDigits | src/utils/gpxParser.ts:23-24 | `parseFloat` reads a non-empty digit string as its decimal value |
| GpxParser.ParseFloatNotANumber | src/utils/gpxParser.ts:23-24 | a non-empty attribute whose first character cannot start a number parses to NaN, not to the 0 default |
| GpxParser.OrDefault | src/utils/gpxParser.ts:23-25 | `a \|\| d` on an optional string: the value when present and non-empty, otherwise the default |
| GpxParser.ToPointDefaults | src/utils/gpxParser.ts:22-25 | an absent or empty `lat`/`lon` gives coordinate 0, a present one is parsed; a missing `<time>` gives `''` |
| GpxParser.UnreadableLatitudeIsNaN | src/utils/gpxParser.ts:23 | a latitude whose first character cannot start a number (not white space, a digit, a sign, `.` or `I`) becomes NaN |
| GpxParser.ParseGpx | src/utils/gpxParser.ts:18-28 | one point per `trkpt`, in document order, each read as above |
| GpxParser.Segment | src/utils/gpxParser.ts:39 | the segment distance is finite exactly when all four coordinates are |
| GpxParser.SegmentProperties | src/utils/gpxParser.ts:46-58 | a finite segment is non-negative, symmetric in its endpoints, and 0 from a point to itself |
| GpxParser.CalculateDistance | src/utils/gpxParser.ts:33-44 | the result starts with 0, has one entry per point (`[0]` for no points), and each entry is the previous plus the segment ending there |
| GpxParser.CumulativeUnique | src/utils/gpxParser.ts:33-44 | the running-sum description fixes the result completely |
| GpxParser.CumulativeNonDecreasing | src/utils/gpxParser.ts:40 | a finite running sum never decreases along the track |
| GpxParser.CumulativeFinite | src/utils/gpxParser.ts:36-41 | with all coordinates finite, every running sum is finite |
| SportsAndData.FormatTime | src/components/sections/SportsAndData.tsx:24-29 | `formatTime`: padded hours, minutes and seconds joined by `:`; `FormatTimeRoundTrip` and `FormatTimeLength` state what it gives |
| SportsAndData.Pad2 | src/components/sections/SportsAndData.tsx:28 | `n.toString().padStart(2, '0')`; `Pad2Value` and `Pad2Length` state what it gives |
| SportsAndData.PadStart | src/components/sections/SportsAndData.tsx:28 | `padStart` keeps the string as the suffix, fills the front with the fill character, and reaches the width unless the string is longer |
| SportsAndData.TimeFields | src/components/sections/SportsAndData.tsx:25-27 | hours·3600 + minutes·60 + seconds recovers the total, with minutes and seconds below 60 |
| SportsAndData.PadStartValue | src/components/sections/SportsAndData.tsx:28 | zero-padding a digit string keeps its value |
| SportsAndData.Pad2Value | src/components/sections/SportsAndData.tsx:28 | a padded field is all digits and reads back as its number |
| SportsAndData.Pad2Length | src/components/sections/SportsAndData.tsx:28 | a padded field has at least two characters, exactly two below 100 and three from 100 to 999 |
| SportsAndData.FormatTimeLayout | src/components/sections/SportsAndData.tsx:28 | the text is the hours field, `:`, the minutes field, `:`, and the seconds field |
| SportsAndData.FormatTimeLength | src/components/sections/SportsAndData.tsx:24-28 | the text is 8 characters exactly below 360000 s (100 hours); hours are not capped, so from 360000 s to 3599999 s the text is 9 characters, the hours field having 3 digits |
| SportsAndData.FormatTimeRoundTrip | src/components/sections/SportsAndData.tsx:24-29 | reading `formatTime(s)` back as `HH:MM:SS` gives s for every whole number of seconds |
| SportsAndData.ReplaceFirst | src/components/sections/SportsAndData.tsx:39 | `String.replace` with a string pattern and a replacement without `$`; `ReplaceFirstSpec` states what it gives |
| SportsAndData.GpxPath | src/components/sections/SportsAndData.tsx:39 | `PUBLIC_URL + geoJsonPath.replace('.json', '.gpx')`; `GpxPathOfRoute` states it for the route paths |
| SportsAndData.FindFrom | src/components/sections/SportsAndData.tsx:39 | the search finds the first occurrence of the pattern at or after a position, or reports that there is none |
| SportsAndData.ReplaceFirstSpec | src/components/sections/SportsAndData.tsx:39 | `replace` with a string pattern and a replacement without `$` changes only the first occurrence and leaves a string without one unchanged |
| SportsAndData.GpxPathOfRoute | src/components/sections/SportsAndData.tsx:39 | for a route path `<name>.json` with no other dot, the GPX path is the public URL, the name and `.gpx` |
| SportsAndData.TargetDistance | src/components/sections/SportsAndData.tsx:54-57 | the target-distance ternary chain; `TargetDistanceKnown` states which labels have a distance |
| SportsAndData.XTickCount | src/components/sections/SportsAndData.tsx:191-195 | the tick count per event; `XTickValues` states it |
| SportsAndData.XTickStep | src/components/sections/SportsAndData.tsx:196-200 | the tick spacing per event; `XTickValues` states it |
| SportsAndData.XTickVals | src/components/sections/SportsAndData.tsx:190-201 | the `Array.from` of elapsed-time tick values; `XTickValues` states them |
| SportsAndData.XTickText | src/components/sections/SportsAndData.tsx:202-213 | the `Array.from` of elapsed-time tick labels; `XTickLabels` states them |
| SportsAndData.Y2Range | src/components/sections/SportsAndData.tsx:244-248 | the upper bound of the projected-finish axis per event; `Y2TickValues` states it |
| SportsAndData.Y2TickVals | src/components/sections/SportsAndData.tsx:236-243 | the `Array.from` of projected-finish tick values; `Y2TickValues` states them |
| SportsAndData.Y2TickText | src/components/sections/SportsAndData.tsx:228-235 | the `Array.from` of projected-finish tick labels; `Y2TickLabels` states them |
| SportsAndData.TargetDistanceKnown | src/components/sections/SportsAndData.tsx:54-57 | only Marathon, Half Marathon, 10K and 5K have a positive target distance and any other label gives 0; a half marathon is half a marathon; every listed race is known |
| SportsAndData.XTickValues | src/components/sections/SportsAndData.tsx:190-201 | 13/7/8/8 ticks (13 otherwise), starting at 0 and spaced 1800/1800/600/300 s; the last tick lies within the secondary range |
| SportsAndData.XTickLabels | src/components/sections/SportsAndData.tsx:202-213 | each elapsed-time label is `formatTime` of its tick and reads back to it |
| SportsAndData.Y2TickValues | src/components/sections/SportsAndData.tsx:236-248 | five ticks from 0 to the axis range in equal quarters; each range is a multiple of 4 |
| SportsAndData.Y2TickLabels | src/components/sections/SportsAndData.tsx:228-235 | each projected-finish label is `formatTime` of its tick and reads back to it |
| SportsAndData.LabelsReadBack | src/components/sections/SportsAndData.tsx:202-213 | any table of labels made by `formatTime` reads back to its values |
| SportsAndData.Elapsed | src/components/sections/SportsAndData.tsx:50 | elapsed seconds are finite exactly when both timestamps are readable |
| SportsAndData.IsSampled | src/components/sections/SportsAndData.tsx:48-63 | what the `reduce` produces: one elapsed time and one projected finish per index that is a multiple of 50, in order |
| SportsAndData.SampleProjection | src/components/sections/SportsAndData.tsx:48-63 | both series hold one entry per index that is a multiple of 50, in increasing order, ⌈n/50⌉ entries each |
| SportsAndData.StrideKeepsMultiplesOf50 | src/components/sections/SportsAndData.tsx:49 | every sampled index is below n, and every index below n that is a multiple of 50 is sampled |
| SportsAndData.RunningPanel.constructor | src/components/sections/SportsAndData.tsx:11-22 | no card selected and four empty series |
| SportsAndData.RunningPanel.HandleCardClick | src/components/sections/SportsAndData.tsx:31-76 | a card without a route changes nothing; clicking the selected card deselects it and empties the series; another card is selected, its GPX path is fetched, and a non-empty track replaces the series with the parsed, summed and sampled data |
| GeoRoute.Flatten | src/components/MapInline.tsx:42 | `lines.reduce((acc, line) => acc.concat(line), [])`; `FlattenAppend`, `FlattenSingle` and `FlattenMembers` state what it gives |
| GeoRoute.FlattenSingle | src/components/MapInline.tsx:42 | a MultiLineString with one line flattens to that line |
| GeoRoute.LineMarkers | src/components/MapInline.tsx:48-88 | the start and finish markers of one line, none for an empty line |
| GeoRoute.MarkersOf | src/components/MapInline.tsx:34-88 | the tracked marker list built over the lines in order; `MarkersOfCount` and `MarkersOfLine` state it |
| GeoRoute.FlattenAppend | src/components/MapInline.tsx:42 | flattening maps concatenation of line lists to concatenation of positions |
| GeoRoute.FlattenMembers | src/components/MapInline.tsx:42 | a position is in a flattened MultiLineString exactly when it is on one of its lines |
| GeoRoute.MarkersOfSnoc | src/components/MapInline.tsx:88 | one more line appends its own start and finish markers |
| GeoRoute.MarkersOfAppend | src/components/MapInline.tsx:88 | the markers of two line lists are the markers of each, in order |
| GeoRoute.MarkersOfCount | src/components/MapInline.tsx:48-88 | two markers per non-empty line, alternating start and finish |
| GeoRoute.MarkersOfLine | src/components/MapInline.tsx:50-88 | the markers of a non-empty line sit at its first and last position, after those of the earlier lines |
| GeoRoute.Extend | src/components/MapInline.tsx:102 | `bounds.extend([c[0], c[1]])` on a possibly empty box |
| GeoRoute.ExtendAll | src/components/MapInline.tsx:100-104 | the `forEach` that extends the box by every position with two or more numbers; `ExtendAllBounds` states what it gives |
| GeoRoute.ExtendAllBounds | src/components/MapInline.tsx:100-104 | after extending, the box contains every position with two or more numbers and covers the box it started from; it stays empty only when nothing was added; it is the smallest such box |
| GeoRoute.ExtendBounds | src/components/MapInline.tsx:100-104 | the `forEach` loop that extends the bounds computes that box |
| GeoRoute.LinesBounds | src/components/MapModal.tsx:28-61 | the box over all lines, starting empty; `LinesBoundsCover` states what it gives |
| GeoRoute.LinesBoundsCover | src/components/MapModal.tsx:57-61 | the box over a list of lines contains each of their positions with two or more numbers; it is empty exactly when there is none |
| GeoRoute.ContainsWithin | src/components/MapInline.tsx:91-104 | a position inside a box is inside every box that covers it |
| GeoRoute.RemoveMarkers | src/components/MapInline.tsx:18-19 | removing the tracked markers takes exactly them off the map |
| MapInline.LineOf | src/components/MapInline.tsx:35-43 | the positions of a LineString, the flattened positions of a MultiLineString, none for other geometry |
| MapInline.InlineLines | src/components/MapInline.tsx:34-46 | the lines of the line features, in feature order; `InlineLinesOfFeatures` states it |
| MapInline.LastLine | src/components/MapInline.tsx:46 | the positions kept for the animation; `LastLineIsLast` and `LastLineWithoutLines` state it |
| MapInline.InlineBounds | src/components/MapInline.tsx:91-104 | the box seeded by the first non-empty line's endpoints and extended by every line; `InlineBoundsAgree` and `InlineBoundsCover` state it |
| MapInline.InlineLinesOfFeatures | src/components/MapInline.tsx:34-46 | the inline map's lines are exactly the LineString and flattened MultiLineString features' lines |
| MapInline.LastLineIsLast | src/components/MapInline.tsx:46 | the animation keeps the positions of the last line feature |
| MapInline.LastLineWithoutLines | src/components/MapInline.tsx:34-46 | without a line feature the animation positions stay as they were |
| MapInline.EmptyLinesBounds | src/components/MapInline.tsx:91-110 | with no non-empty line no box is built, and the view is not fitted |
| MapInline.CoversBoth | src/components/MapInline.tsx:91-104 | two boxes that cover each other are equal |
| MapInline.FirstLineBounds | src/components/MapInline.tsx:91-104 | starting the box from a line's first and last position, then adding the line, gives the line's own box |
| MapInline.InlineBoundsAgree | src/components/MapInline.tsx:91-104 | the start-from-endpoints box of the inline map equals the plain box over all positions |
| MapInline.InlineBoundsCover | src/components/MapInline.tsx:91-117 | the fitted box contains every position with two or more numbers of every line feature; there is none exactly when no such position exists |
| MapInline.InlineLinesStep | src/components/MapInline.tsx:34-46 | one more feature adds its line and becomes the animation line when it is a line feature, and changes neither otherwise |
| MapInline.LinesStep | src/components/MapInline.tsx:48-104 | one more line adds its markers and extends the box, starting a fresh box from its endpoints when it is the first non-empty line |
| MapInline.AnimationFrames | src/components/MapInline.tsx:127-157 | the lines `animate` sets on the source, frame by frame; `AnimationFramesShape` states them |
| MapInline.HoverFrames | src/components/MapInline.tsx:61-122 | what one hover draws given the flag the handler reads and the flag `animateRoute` reads |
| MapInline.AnimationFramesShape | src/components/MapInline.tsx:127-144 | forward over n positions draws the prefixes of length 1 to n−1 and never the full route; reverse draws the suffixes of length 2 to n, the last being the full route |
| MapInline.Animate | src/components/MapInline.tsx:127-160 | the frame loop of `animate` draws exactly those frames |
| MapInline.StaleHoverDrawsNothing | src/components/MapInline.tsx:61-122 | as written, a hover draws nothing whatever the captured flag, though the route has n−1 frames |
| MapInline.LiveHoverDrawsRoute | src/components/MapInline.tsx:61-122 | reading the live flag, a hover while idle draws every frame and a hover while animating draws nothing more |
| MapInline.PlaceLines | src/components/MapInline.tsx:34-107 | the feature loop places the markers of the lines, keeps the last line, builds the box, and notes whether some line was non-empty |
| MapInline.RouteMap.constructor | src/components/MapInline.tsx:10-15 | no map, no markers, no route positions, not animating, no frame requested |
| MapInline.RouteMap.ClearMarkers | src/components/MapInline.tsx:18-21 | every tracked marker leaves the map and the tracked list is empty |
| MapInline.RouteMap.UpdateRouteDisplay | src/components/MapInline.tsx:24-119 | without a map or without features nothing changes; otherwise the markers, the animation line and the fitted views are those of the features |
| MapInline.RouteMap.InitializeMap | src/components/MapInline.tsx:166-202 | a map is created only when there is none; a new map has no route source or layer |
| MapInline.RouteMap.LoadRoute | src/components/MapInline.tsx:204-243 | a loaded route replaces any `route` source and layer with a single one holding the file, then updates the display; a failed fetch changes nothing |
| MapInline.RouteMap.Effect | src/components/MapInline.tsx:163-245 | without a container nothing happens; otherwise a map exists and a loaded route is shown |
| MapInline.RouteMap.AnimateRoute | src/components/MapInline.tsx:121-161 | without a map or with the guard off nothing changes; otherwise each frame is requested, drawn when the source exists, the last frame stays on the source, and the flag ends off |
| MapInline.RouteMap.OnMarkerEnterAsWritten | src/components/MapInline.tsx:61-66 | as written, a hover sets the flag but draws nothing and requests no frame |
| MapInline.RouteMap.OnMarkerEnter | src/components/MapInline.tsx:61-66 | reading the live flag, a hover during an animation changes nothing; an idle hover with a map draws the route's frames, requests one frame per line, leaves the source on the last frame and ends idle; without a map the flag stays set and nothing else changes |
| MapInline.RouteMap.OnMarkerLeave | src/components/MapInline.tsx:67-69 | leaving a marker stops the animation flag |
| MapInline.RouteMap.Cleanup | src/components/MapInline.tsx:248-266 | cancels the recorded frame, empties the markers, removes layer, source and map; a second cleanup changes nothing |
| MapModal.ModalLines | src/components/MapModal.tsx:30-31 | the positions of the LineString features only, in feature order; `ModalLinesOfFeatures` and `ModalLinesHold` state it |
| MapModal.ModalLinesOfFeatures | src/components/MapModal.tsx:30-31 | the modal takes only LineString features: it agrees with the inline map when there is no MultiLineString and has no line when there is no LineString |
| MapModal.ModalLinesStep | src/components/MapModal.tsx:30-61 | one more feature adds its line only when it is a LineString; its markers and its box extend those of the earlier lines |
| MapModal.PlaceLineStrings | src/components/MapModal.tsx:30-63 | the feature loop places two markers per non-empty LineString and builds the box over them |
| MapModal.ModalBoundsCover | src/components/MapModal.tsx:57-61 | the fitted box contains every position with two or more numbers of every LineString |
| MapModal.ModalLinesHold | src/components/MapModal.tsx:31 | every LineString feature's positions are among the modal's lines |
| MapModal.RouteModal.constructor | src/components/MapModal.tsx:12-14 | no map, no markers, no fitted view |
| MapModal.RouteModal.ClearMarkers | src/components/MapModal.tsx:17-20 | every tracked marker leaves the map and the tracked list is empty |
| MapModal.RouteModal.UpdateRouteDisplay | src/components/MapModal.tsx:23-70 | without a map or without features nothing changes; otherwise old markers are cleared first, the LineString markers are placed, and the view is fitted unconditionally |
| MapModal.RouteModal.Effect | src/components/MapModal.tsx:72-148 | nothing happens unless the container exists and the modal is open; then a map exists, and a loaded route is the source and is shown; a route without features leaves the markers and fitted views as they were |
| MapModal.RouteModal.Cleanup | src/components/MapModal.tsx:150-156 | with a map: markers emptied and map, source and layer gone; without a map nothing changes |
| Skills.FromProject | src/components/sections/Skills.tsx:64-68 | a project's usage: type project, the project title, its details |
| Skills.FromExperience | src/components/sections/Skills.tsx:75-79 | an experience usage: type experience, "position at company", its details |
| Skills.FromTeaching | src/components/sections/Skills.tsx:86-90 | a teaching usage: type teaching, "course at institution", its details |
| Skills.Select | src/components/sections/Skills.tsx:62-70 | the usages of the entries of one list whose skills include the skill, in list order; `SelectIsMatches` and `SelectMembers` state it |
| Skills.UsagesFor | src/components/sections/Skills.tsx:58-92 | the three selections concatenated; `UsagesGrouped` and `UsageTitles` state it |
| Skills.MatchesExact | src/components/sections/Skills.tsx:62-63 | the matching positions are in range, strictly increasing, and are exactly the entries whose skills contain the skill |
| Skills.SelectIsMatches | src/components/sections/Skills.tsx:62-70 | the usages of a list are those of the matching entries, one each, in list order |
| Skills.SelectMembers | src/components/sections/Skills.tsx:62-70 | every usage comes from a matching entry and every matching entry gives its usage |
| Skills.SelectStep | src/components/sections/Skills.tsx:62-70 | one more entry adds its usage exactly when its skills contain the skill |
| Skills.UsagesGrouped | src/components/sections/Skills.tsx:58-92 | projects first, then experience, then teaching, each in list order; the count is the sum of the three match counts |
| Skills.UsageTitles | src/components/sections/Skills.tsx:63-90 | a project usage has the project title, an experience usage "position at company", a teaching usage "course at institution", all with the entry's details; each matching entry appears |
| Skills.SiteProjectsIndexed | src/components/sections/Projects.tsx:11-47 | the site's projects carry the recorded skill lists |
| Skills.SiteExperienceIndexed | src/components/sections/Experience.tsx:13-25 | the site's experience entry carries the recorded skill list |
| Skills.SiteTeachingIndexed | src/components/sections/Teaching.tsx:14-54 | the site's courses carry the recorded skill lists |
| Skills.ProjectSpellings | src/components/sections/Projects.tsx:45 | only the last project lists "Tensorflow", and no project lists "TensorFlow" |
| Skills.ExperienceSpellings | src/components/sections/Experience.tsx:23 | the experience entry lists neither spelling |
| Skills.TeachingSpellings | src/components/sections/Teaching.tsx:43 | only the deep learning course lists "TensorFlow", and no course lists "Tensorflow" |
| Skills.ProjectsTensorflow | src/components/sections/Skills.tsx:62-70 | among the projects, "Tensorflow" finds the last one and "TensorFlow" finds none |
| Skills.ExperienceTensorflow | src/components/sections/Skills.tsx:73-81 | the experience entry matches neither spelling |
| Skills.TeachingTensorflow | src/components/sections/Skills.tsx:84-92 | among the courses, "TensorFlow" finds the deep learning course and "Tensorflow" none |
| Skills.TensorflowSpellings | src/components/sections/Skills.tsx:62-92 | matching is exact and case-sensitive: each spelling finds only the entry that spells it so |
| Skills.ChipSpellings | src/components/sections/Skills.tsx:32-41 | the page has a "TensorFlow" chip and no "Tensorflow" chip |
| Skills.TensorFlowChip | src/components/sections/Skills.tsx:129-133 | clicking the "TensorFlow" chip lists only the deep learning course, not the project spelled "Tensorflow" |
| Skills.CollectUsages | src/components/sections/Skills.tsx:59-92 | the three `forEach` loops build exactly the grouped usage list |
| Skills.GetUsageIcon | src/components/sections/Skills.tsx:103-114 | the `switch` of `getUsageIcon`; `UsageIconTotal` states it |
| Skills.UsageIconTotal | src/components/sections/Skills.tsx:103-114 | the three type names get distinct non-empty labels ending in ": "; every other string gets `''` |
| Skills.SkillsPage.constructor | src/components/sections/Skills.tsx:46-48 | dialog closed, no skill selected, no usages |
| Skills.SkillsPage.HandleSkillClick | src/components/sections/Skills.tsx:58-97 | the dialog opens on the clicked skill with its usages |
| Skills.SkillsPage.HandleClose | src/components/sections/Skills.tsx:99-101 | only `open` becomes false; the skill and the usages stay |
| Skills.SkillsPage.OnLocationState | src/components/sections/Skills.tsx:50-56 | a non-empty `selectedSkill` in the navigation state is clicked; an absent or empty one changes nothing |

## Left out

- The XML reader and the GeoJSON conversion libraries. The model starts from `trkpt` elements already read into optional strings.
- `fetch`, `response.text()` and `response.json()`. A fetched route is a parameter (`None` when fetching or decoding fails), and so is the track read from a GPX file (`fetchGpx`).
- `Date` parsing. Timestamps reach the model through a parameter `stamp` that gives whole seconds, or `None` for an unreadable date (NaN).
- The haversine trigonometry. It is the parameter `hav` with the three properties of `IsDistance`.
- Floating-point rounding and Infinity. Numbers are exact reals or NaN. `Common.NatToString` and `SportsAndData.FormatTimeRoundTrip` give plain digits for every whole number, while `toString` switches to exponent form (`1e+21`) from 10^21, far beyond the exact integers of a double.
- GpxParser.ParseFloat: reads leading white space, a sign, digits, a fraction and an exponent. The literal `Infinity` gives NaN in the model, because Infinity is not represented. Exponents beyond the float range are not rounded to Infinity or 0.
- SportsAndData.SampleProjection: the projected finish `target / (distance / elapsed)` is kept as its three operands, because float division (including the `0/0` at index 0) is not modelled.
- SportsAndData.ReplaceFirst: `$&`, `$$`, `` $` `` and `$'` in the replacement are not expanded; the one call replaces `.json` with `.gpx`, which holds no `$`.
- SportsAndData.FormatTimeRoundTrip: stated for whole seconds only. The chart also formats fractional projected times, which `Math.floor` truncates.
- Plotly rendering, MUI layout and JSX.
- maplibre internals: tiles, the `load` event, popups, `fitBounds` animation and its padding and zoom options.
- maplibre's own failures are not modelled. It can throw on positions with fewer than two numbers and on fitting an empty box. The modal's `fitBounds` on an empty box is recorded as a `None` fit.
- Timing is not modelled. This covers `requestAnimationFrame` scheduling, a `mouseleave` that arrives during an animation, and an asynchronous load that finishes after cleanup. Each operation runs to completion.
- The modal adds its `route` source without removing an old one. The model does not capture a second `addSource` on a live map, which maplibre rejects; cleanup always removes the map first.
- MapInline.RouteMap.UpdateRouteDisplay: a feature whose `geometry` is null, which GeoJSON allows, is not modelled. In the source `feature.geometry.type` throws on it, the `forEach` stops with the earlier markers placed and no view fitted, and the error lands in the load's `catch` (the layer is then not added). Every modelled feature has a geometry.
- MapModal.RouteModal.UpdateRouteDisplay: the same null geometry is not modelled. There the throw leaves the earlier markers placed and the view unfitted.
- Event-listener registration is not modelled. A hover is a method call on the map object.
- Skills.SkillsPage.constructor: takes the imported entries as a parameter. The site's own entries are tied to the recorded skill lists by `SiteProjectsIndexed`, `SiteExperienceIndexed` and `SiteTeachingIndexed`.
- The detail texts of projects, experience and courses are carried into usages but not reasoned about.
- The home page's random skill pick and its project filter. The filter is the same rule as the projects loop of the skills page.
- Navigation, routing, theme, and the other static pages.

## Findings

| source | as written | input that shows it | evidently intended | confidence | as-written member | corrected member |
|---|---|---|---|---|---|---|
| src/components/MapInline.tsx:61-66, 78-83, 122 | the hover handlers and `animateRoute` read `isAnimating` from the render that registered them; there it is `false`, so the handler calls `animateRoute`, whose guard `!isAnimating` returns at once | hover the start marker of any route with two or more positions: no frame is drawn | an idle hover animates the route; a hover during an animation does nothing | not executed | MapInline.RouteMap.OnMarkerEnterAsWritten, MapInline.StaleHoverDrawsNothing | MapInline.RouteMap.OnMarkerEnter, MapInline.LiveHoverDrawsRoute |
