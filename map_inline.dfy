/** The inline route map of a race card: it loads a GeoJSON route into a
    map source, puts start and finish markers on every line, fits the view to
    the route, and animates the route line when a marker is hovered. */
module MapInline {
  import opened Common
  import opened GeoRoute

  /** What the map's `route` source holds: the loaded route file, or a line
      that the animation has set. */
  datatype SourceData = RouteFile(data: RouteData) | Frame(coordinates: seq<Position>)

  /** The positions of a line feature: a LineString's own, a
      MultiLineString's parts joined into one line; none for other geometry. */
  function LineOf(g: Geometry): Option<seq<Position>> {
    match g
    case LineString(cs) => Some(cs)
    case MultiLineString(ls) => Some(Flatten(ls))
    case OtherGeometry => None
  }

  /** The lines of the line features, in feature order. */
  function InlineLines(fs: seq<Feature>): seq<seq<Position>> {
    if fs == [] then []
    else
      InlineLines(fs[..|fs| - 1]) +
        match LineOf(fs[|fs| - 1].geometry)
        case Some(cs) => [cs]
        case None => []
  }

  /** The positions kept for the animation: those of the last line feature,
      or the previous ones when there is no line feature. */
  function LastLine(fs: seq<Feature>, prev: seq<Position>): seq<Position> {
    if fs == [] then prev
    else
      match LineOf(fs[|fs| - 1].geometry)
      case Some(cs) => cs
      case None => LastLine(fs[..|fs| - 1], prev)
  }

  /** The bounds as `updateRouteDisplay` builds them: the first non-empty
      line starts a fresh box from its first and last position, then every
      non-empty line extends it by all of its positions. */
  function InlineBounds(lines: seq<seq<Position>>): Option<Box> {
    if lines == [] then None
    else
      var p := lines[..|lines| - 1];
      var l := lines[|lines| - 1];
      var b := InlineBounds(p);
      if l == [] then b
      else ExtendAll(if NonEmptyCount(p) > 0 then b else ExtendAll(None, [l[0], l[|l| - 1]]), l)
  }

  /** Every line of the list is the line of some feature, and every line
      feature's line is in the list. */
  lemma {:induction false} InlineLinesOfFeatures(fs: seq<Feature>)
    ensures forall l :: l in InlineLines(fs) <==> exists i :: 0 <= i < |fs| && LineOf(fs[i].geometry) == Some(l)
  {
    if fs != [] {
      var n := |fs|;
      var p := fs[..n - 1];
      InlineLinesOfFeatures(p);
      forall l ensures l in InlineLines(fs) <==> exists i :: 0 <= i < n && LineOf(fs[i].geometry) == Some(l) {
        if l in InlineLines(p) {
          var i :| 0 <= i < |p| && LineOf(p[i].geometry) == Some(l);
          assert fs[i] == p[i];
        }
        if exists i :: 0 <= i < n && LineOf(fs[i].geometry) == Some(l) {
          var i :| 0 <= i < n && LineOf(fs[i].geometry) == Some(l);
          if i < n - 1 {
            assert p[i] == fs[i];
          }
        }
      }
    }
  }

  /** The kept positions are those of the last line feature. */
  lemma {:induction false} LastLineIsLast(fs: seq<Feature>, prev: seq<Position>, j: nat)
    requires j < |fs| && LineOf(fs[j].geometry).Some?
    requires forall i :: j < i < |fs| ==> LineOf(fs[i].geometry).None?
    ensures LastLine(fs, prev) == LineOf(fs[j].geometry).value
  {
    var n := |fs|;
    if j < n - 1 {
      var p := fs[..n - 1];
      assert LineOf(fs[n - 1].geometry).None?;
      assert p[j] == fs[j];
      assert forall i :: j < i < |p| ==> p[i] == fs[i];
      LastLineIsLast(p, prev, j);
    }
  }

  /** The kept positions stay as they were when no feature is a line. */
  lemma {:induction false} LastLineWithoutLines(fs: seq<Feature>, prev: seq<Position>)
    requires forall i :: 0 <= i < |fs| ==> LineOf(fs[i].geometry).None?
    ensures LastLine(fs, prev) == prev
  {
    if fs != [] {
      var p := fs[..|fs| - 1];
      assert forall i :: 0 <= i < |p| ==> p[i] == fs[i];
      LastLineWithoutLines(p, prev);
    }
  }

  /** Lines before the first non-empty one add nothing to the bounds. */
  lemma {:induction false} EmptyLinesBounds(lines: seq<seq<Position>>)
    requires NonEmptyCount(lines) == 0
    ensures LinesBounds(lines) == None && InlineBounds(lines) == None
  {
    if lines != [] {
      EmptyLinesBounds(lines[..|lines| - 1]);
    }
  }

  /** Two boxes that cover each other are the same box. */
  lemma CoversBoth(a: Box, b: Box)
    requires Covers(a, b) && Covers(b, a)
    ensures a == b
  {
  }

  /** Starting a line's box from its first and last position changes
      nothing: the box is the plain box of the line. */
  lemma FirstLineBounds(l: seq<Position>)
    requires l != []
    ensures ExtendAll(ExtendAll(None, [l[0], l[|l| - 1]]), l) == ExtendAll(None, l)
  {
    var ends := [l[0], l[|l| - 1]];
    var b0 := ExtendAll(None, ends);
    var r1 := ExtendAll(b0, l);
    var r2 := ExtendAll(None, l);
    var dummy := Box(0.0, 0.0, 0.0, 0.0);
    ExtendAllBounds(b0, l, dummy);
    ExtendAllBounds(None, l, dummy);
    ExtendAllBounds(None, ends, dummy);
    assert forall c :: c in ends ==> c in l;
    if r2.Some? {
      ExtendAllBounds(None, ends, r2.value);
      ExtendAllBounds(b0, l, r2.value);
      ExtendAllBounds(None, l, r1.value);
      CoversBoth(r1.value, r2.value);
    }
  }

  /** The box the inline map fits to is the plain box of all the lines: the
      fresh start from the first line's ends does not change it. */
  lemma {:induction false} InlineBoundsAgree(lines: seq<seq<Position>>)
    ensures InlineBounds(lines) == LinesBounds(lines)
  {
    if lines != [] {
      var n := |lines|;
      var p := lines[..n - 1];
      var l := lines[n - 1];
      InlineBoundsAgree(p);
      if l != [] && NonEmptyCount(p) == 0 {
        EmptyLinesBounds(p);
        FirstLineBounds(l);
      }
    }
  }

  /** The box the inline map fits to holds every position (with at least
      two numbers) of every line feature, and is empty only when no line
      feature has such a position. */
  lemma InlineBoundsCover(fs: seq<Feature>)
    ensures forall i, c :: 0 <= i < |fs| && LineOf(fs[i].geometry).Some? && c in LineOf(fs[i].geometry).value && |c| >= 2 ==>
      InlineBounds(InlineLines(fs)).Some? && Contains(InlineBounds(InlineLines(fs)).value, c)
    ensures InlineBounds(InlineLines(fs)).None? <==>
      forall i, c :: 0 <= i < |fs| && LineOf(fs[i].geometry).Some? && c in LineOf(fs[i].geometry).value ==> |c| < 2
  {
    var lines := InlineLines(fs);
    InlineBoundsAgree(lines);
    LinesBoundsCover(lines);
    InlineLinesOfFeatures(fs);
    forall i, c | 0 <= i < |fs| && LineOf(fs[i].geometry).Some? && c in LineOf(fs[i].geometry).value
      ensures exists j :: 0 <= j < |lines| && c in lines[j]
    {
      assert LineOf(fs[i].geometry).value in lines;
    }
    forall j, c | 0 <= j < |lines| && c in lines[j]
      ensures exists i :: 0 <= i < |fs| && LineOf(fs[i].geometry).Some? && c in LineOf(fs[i].geometry).value
    {
      assert lines[j] in lines;
    }
  }

  /** One more feature: a line feature adds its line and becomes the kept
      line; any other feature changes neither. */
  lemma InlineLinesStep(fs: seq<Feature>, i: nat, prev: seq<Position>)
    requires i < |fs|
    ensures LineOf(fs[i].geometry).Some? ==>
      InlineLines(fs[..i + 1]) == InlineLines(fs[..i]) + [LineOf(fs[i].geometry).value]
      && LastLine(fs[..i + 1], prev) == LineOf(fs[i].geometry).value
    ensures LineOf(fs[i].geometry).None? ==>
      InlineLines(fs[..i + 1]) == InlineLines(fs[..i]) && LastLine(fs[..i + 1], prev) == LastLine(fs[..i], prev)
  {
    assert fs[..i + 1][..i] == fs[..i];
  }

  /** One more line: its markers follow, and the bounds are started from
      its ends if it is the first non-empty line, then extended by it. */
  lemma LinesStep(lines: seq<seq<Position>>, cs: seq<Position>)
    ensures MarkersOf(lines + [cs]) == MarkersOf(lines) + LineMarkers(cs)
    ensures NonEmptyCount(lines + [cs]) == NonEmptyCount(lines) + (if cs == [] then 0 else 1)
    ensures InlineBounds(lines + [cs]) ==
      if cs == [] then InlineBounds(lines)
      else ExtendAll(if NonEmptyCount(lines) > 0 then InlineBounds(lines) else ExtendAll(None, [cs[0], cs[|cs| - 1]]), cs)
  {
    assert (lines + [cs])[..|lines|] == lines;
  }

  /** The frames the animation draws, in order. Forwards, the k-th frame is
      the first k + 1 positions; backwards, the last k + 2. A route of n
      positions gives n - 1 frames, and none when it has fewer than two. */
  function AnimationFrames(coords: seq<Position>, reverse: bool): seq<seq<Position>> {
    var n := |coords|;
    if n == 0 then []
    else if reverse then seq(n - 1, k requires 0 <= k < n - 1 => coords[n - 2 - k..])
    else seq(n - 1, k requires 0 <= k < n - 1 => coords[..k + 1])
  }

  /** The forward animation grows the drawn line from the start, one
      position a frame, and stops one position short of the finish; the
      backward animation grows it from the finish and ends with the whole
      route drawn. */
  lemma AnimationFramesShape(coords: seq<Position>, reverse: bool)
    ensures |AnimationFrames(coords, reverse)| == if |coords| == 0 then 0 else |coords| - 1
    ensures !reverse ==> forall k :: 0 <= k < |AnimationFrames(coords, reverse)| ==>
      var f := AnimationFrames(coords, reverse)[k];
      |f| == k + 1 && f == coords[..|f|] && f != coords
    ensures reverse ==> forall k :: 0 <= k < |AnimationFrames(coords, reverse)| ==>
      var f := AnimationFrames(coords, reverse)[k];
      |f| == k + 2 && f == coords[|coords| - |f|..]
    ensures reverse && |coords| >= 2 ==> AnimationFrames(coords, reverse)[|coords| - 2] == coords
  {
  }

  /** The requestAnimationFrame loop of `animateRoute`, each iteration one
      call of `animate`: step the index, stop once it leaves the route,
      otherwise draw the slice up to (forwards) or from (backwards) it. */
  method Animate(coords: seq<Position>, reverse: bool) returns (frames: seq<seq<Position>>)
    ensures frames == AnimationFrames(coords, reverse)
  {
    var n := |coords|;
    var count := if n == 0 then 0 else n - 1;
    var current: int := if reverse then n - 1 else 0;
    var step := if reverse then -1 else 1;
    var done := false;
    frames := [];
    while !done
      invariant |frames| <= count
      invariant frames == AnimationFrames(coords, reverse)[..|frames|]
      invariant !done ==> current == if reverse then n - 1 - |frames| else |frames|
      invariant done ==> |frames| == count
      decreases count - |frames| + (if done then 0 else 1)
    {
      current := current + step;
      done := if reverse then current < 0 else current >= n;
      if !done {
        var f := if reverse then coords[current..] else coords[..current];
        frames := frames + [f];
      }
    }
  }

  /** What one hover of a marker draws, when the hover handler reads
      `handlerSees` for "already animating" and `animateRoute` then reads
      `animateSees` for "animating". */
  function HoverFrames(coords: seq<Position>, reverse: bool, handlerSees: bool, animateSees: bool): seq<seq<Position>> {
    if !handlerSees && animateSees then AnimationFrames(coords, reverse) else []
  }

  /** As written, the handler and `animateRoute` both read the value of
      `isAnimating` captured when the handlers were registered, so whatever
      that value was, a hover draws nothing, though the route has frames. */
  lemma StaleHoverDrawsNothing(coords: seq<Position>, reverse: bool, captured: bool)
    requires |coords| >= 2
    ensures HoverFrames(coords, reverse, captured, captured) == []
    ensures |AnimationFrames(coords, reverse)| == |coords| - 1 > 0
  {
    AnimationFramesShape(coords, reverse);
  }

  /** Reading the live flag, a hover while idle draws every frame of the
      route, and a hover during an animation draws nothing more. */
  lemma LiveHoverDrawsRoute(coords: seq<Position>, reverse: bool, animating: bool)
    ensures HoverFrames(coords, reverse, animating, true) == if animating then [] else AnimationFrames(coords, reverse)
    ensures !animating && |coords| >= 2 ==> |HoverFrames(coords, reverse, animating, true)| == |coords| - 1
  {
    AnimationFramesShape(coords, reverse);
  }

  /** The feature loop of `updateRouteDisplay`: the markers it places, the
      positions it keeps for the animation (starting from `prev`), the bounds
      it builds and whether some line was non-empty. */
  method PlaceLines(fs: seq<Feature>, prev: seq<Position>)
    returns (placed: seq<Marker>, route: seq<Position>, bounds: Option<Box>, initialSet: bool)
    ensures placed == MarkersOf(InlineLines(fs))
    ensures route == LastLine(fs, prev)
    ensures bounds == InlineBounds(InlineLines(fs))
    ensures initialSet == (NonEmptyCount(InlineLines(fs)) > 0)
  {
    placed, route, bounds, initialSet := [], prev, None, false;
    var i := 0;
    while i < |fs|
      invariant 0 <= i <= |fs|
      invariant placed == MarkersOf(InlineLines(fs[..i]))
      invariant route == LastLine(fs[..i], prev)
      invariant initialSet == (NonEmptyCount(InlineLines(fs[..i])) > 0)
      invariant bounds == InlineBounds(InlineLines(fs[..i]))
    {
      InlineLinesStep(fs, i, prev);
      match LineOf(fs[i].geometry) {
        case Some(cs) =>
          LinesStep(InlineLines(fs[..i]), cs);
          route := cs;
          if |cs| > 0 {
            placed := placed + LineMarkers(cs);
            if !initialSet {
              bounds := ExtendBounds(None, [cs[0], cs[|cs| - 1]]);
              initialSet := true;
            }
            bounds := ExtendBounds(bounds, cs);
          }
        case None =>
      }
      i := i + 1;
    }
    assert fs[..i] == fs;
  }

  /** The component's refs and state: the map and its `route` source and
      layer, the markers, the positions kept for the animation, the
      animation flag and frame bookkeeping, and what the map was asked to
      draw and fit. */
  class RouteMap {
    var hasMap: bool
    var hasSource: bool
    var hasLayer: bool
    var source: SourceData
    /** `markersRef.current`. */
    var markers: seq<Marker>
    /** The markers actually on the map. */
    var onMap: multiset<Marker>
    /** `routeCoordinatesRef.current`. */
    var routeCoordinates: seq<Position>
    var isAnimating: bool
    /** `animationRef.current`: the last requested frame id, if any. */
    var animationRef: Option<nat>
    /** How many animation frames were requested; ids run from 1. */
    var requested: nat
    var cancelled: set<nat>
    /** The lines the animation set on the `route` source, in order. */
    var drawn: seq<seq<Position>>
    /** The boxes the view was fitted to, in order. */
    var fitted: seq<Option<Box>>

    /** The tracked markers are exactly those on the map, the layer needs
        the source and the source the map, and only requested frames are
        recorded. */
    ghost predicate Valid()
      reads this
    {
      && onMap == multiset(markers)
      && (!hasMap ==> markers == [] && !hasSource)
      && (hasLayer ==> hasSource)
      && (animationRef.Some? ==> 1 <= animationRef.value <= requested)
    }

    /** After `updateRouteDisplay` with features fs: markers for the lines,
        the last line kept, and the view fitted when some line is non-empty. */
    ghost predicate Shows(fs: seq<Feature>, prevRoute: seq<Position>, prevFitted: seq<Option<Box>>)
      reads this
    {
      var lines := InlineLines(fs);
      && markers == MarkersOf(lines)
      && routeCoordinates == LastLine(fs, prevRoute)
      && fitted == prevFitted + (if NonEmptyCount(lines) > 0 then [InlineBounds(lines)] else [])
    }

    constructor()
      ensures Valid()
      ensures !hasMap && markers == [] && routeCoordinates == [] && !isAnimating
      ensures animationRef == None && requested == 0 && cancelled == {} && drawn == [] && fitted == []
    {
      hasMap := false;
      hasSource := false;
      hasLayer := false;
      source := Frame([]);
      markers := [];
      onMap := multiset{};
      routeCoordinates := [];
      isAnimating := false;
      animationRef := None;
      requested := 0;
      cancelled := {};
      drawn := [];
      fitted := [];
    }

    /** `clearMarkers`: every tracked marker leaves the map and none is tracked. */
    method ClearMarkers()
      requires Valid()
      modifies this`markers, this`onMap
      ensures Valid()
      ensures markers == [] && onMap == old(onMap) - multiset(old(markers)) && onMap == multiset{}
    {
      onMap := RemoveMarkers(onMap, markers);
      markers := [];
    }

    /** `updateRouteDisplay`: without a map, or for data that is a string,
        falsy or without features, nothing happens. Otherwise the old
        markers go, each non-empty line gets a start and a finish marker, the
        last line feature's positions are kept for the animation, and the
        view is fitted when some line was non-empty. */
    method UpdateRouteDisplay(data: RouteData)
      requires Valid()
      modifies this`markers, this`onMap, this`routeCoordinates, this`fitted
      ensures Valid()
      ensures !old(hasMap) || !HasFeatures(data) ==> unchanged(this)
      ensures old(hasMap) && HasFeatures(data) ==> Shows(data.features.value, old(routeCoordinates), old(fitted))
    {
      if !hasMap || !HasFeatures(data) {
        return;
      }
      var fs := data.features.value;
      ClearMarkers();
      var placed, route, bounds, initialSet := PlaceLines(fs, routeCoordinates);
      Record(placed, route, bounds, initialSet);
    }

    /** What the feature loop does to the component: the placed markers go
        on the map and are tracked, the kept positions are stored, and the
        view is fitted to the bounds when some line was non-empty. */
    method Record(placed: seq<Marker>, route: seq<Position>, bounds: Option<Box>, fit: bool)
      requires Valid() && hasMap && markers == []
      modifies this`markers, this`onMap, this`routeCoordinates, this`fitted
      ensures Valid()
      ensures markers == placed && onMap == old(onMap) + multiset(placed) && routeCoordinates == route
      ensures fitted == old(fitted) + (if fit then [bounds] else [])
    {
      markers := placed;
      onMap := onMap + multiset(placed);
      routeCoordinates := route;
      if fit {
        fitted := fitted + [bounds];
      }
    }

    /** The map creation of `initializeMap`, skipped when a map exists. */
    method InitializeMap()
      requires Valid()
      modifies this`hasMap, this`hasSource, this`hasLayer
      ensures Valid() && hasMap
      ensures old(hasMap) ==> unchanged(this)
      ensures !old(hasMap) ==> !hasSource && !hasLayer
    {
      if !hasMap {
        hasMap := true;
        hasSource := false;
        hasLayer := false;
      }
    }

    /** The route loading of `initializeMap`. `fetched` is the parsed route
        file, or None when the fetch or the JSON parse failed (the error is
        caught and nothing else happens). Any existing `route` layer and
        source are removed first, so the new source is never a duplicate;
        then the source is added, the display updated and the layer added. */
    method LoadRoute(fetched: Option<RouteData>)
      requires Valid()
      modifies this`hasSource, this`hasLayer, this`source, this`markers, this`onMap, this`routeCoordinates, this`fitted
      ensures Valid()
      ensures fetched.None? || !old(hasMap) ==> unchanged(this)
      ensures fetched.Some? && old(hasMap) ==> hasSource && hasLayer && source == RouteFile(fetched.value)
      ensures fetched.Some? && old(hasMap) && HasFeatures(fetched.value) ==>
        Shows(fetched.value.features.value, old(routeCoordinates), old(fitted))
      ensures fetched.Some? && !HasFeatures(fetched.value) ==>
        markers == old(markers) && routeCoordinates == old(routeCoordinates) && fitted == old(fitted)
    {
      if fetched.None? || !hasMap {
        return;
      }
      var data := fetched.value;
      if hasSource {
        if hasLayer {
          hasLayer := false;
        }
        hasSource := false;
      }
      hasSource := true;
      source := RouteFile(data);
      UpdateRouteDisplay(data);
      hasLayer := true;
    }

    /** The effect run for a route path: nothing without a container;
        otherwise the map is created if needed and the route loaded. */
    method Effect(containerExists: bool, fetched: Option<RouteData>)
      requires Valid()
      modifies this`hasMap, this`hasSource, this`hasLayer, this`source, this`markers, this`onMap, this`routeCoordinates, this`fitted
      ensures Valid()
      ensures !containerExists ==> unchanged(this)
      ensures containerExists ==> hasMap
      ensures containerExists && fetched.Some? ==> hasSource && hasLayer && source == RouteFile(fetched.value)
      ensures containerExists && fetched.Some? && HasFeatures(fetched.value) ==>
        Shows(fetched.value.features.value, old(routeCoordinates), old(fitted))
      ensures containerExists && fetched.Some? && !HasFeatures(fetched.value) ==>
        markers == old(markers) && routeCoordinates == old(routeCoordinates) && fitted == old(fitted)
      ensures containerExists && fetched.None? ==>
        && markers == old(markers) && onMap == old(onMap) && routeCoordinates == old(routeCoordinates)
        && fitted == old(fitted) && source == old(source)
        && (old(hasMap) ==> hasSource == old(hasSource) && hasLayer == old(hasLayer))
        && (!old(hasMap) ==> !hasSource && !hasLayer)
    {
      if !containerExists {
        return;
      }
      InitializeMap();
      LoadRoute(fetched);
    }

    /** `animateRoute`, whose guard reads `seen` as the animation flag: with
        a map and the flag set, the frames of the kept route are drawn on the
        `route` source (when it exists), one frame requested per drawn line,
        and the flag is cleared when the route is done. */
    method AnimateRoute(reverse: bool, seen: bool)
      requires Valid()
      modifies this`source, this`isAnimating, this`animationRef, this`requested, this`drawn
      ensures Valid()
      ensures !old(hasMap) || !seen ==> unchanged(this)
      ensures old(hasMap) && seen ==>
        var frames := AnimationFrames(routeCoordinates, reverse);
        && drawn == old(drawn) + (if hasSource then frames else [])
        && requested == old(requested) + |frames|
        && animationRef == (if frames == [] then old(animationRef) else Some(requested))
        && !isAnimating
        && (hasSource && frames != [] ==> source == Frame(frames[|frames| - 1]))
        && (!hasSource || frames == [] ==> source == old(source))
    {
      if !hasMap || !seen {
        return;
      }
      var frames := Animate(routeCoordinates, reverse);
      if hasSource {
        drawn := drawn + frames;
        if frames != [] {
          source := Frame(frames[|frames| - 1]);
        }
      }
      if frames != [] {
        requested := requested + |frames|;
        animationRef := Some(requested);
      }
      isAnimating := false;
    }

    /** The `mouseenter` handler of a marker as written: both its check and
        `animateRoute`'s guard read the flag value `captured` from when the
        handler was registered. The flag is set, and nothing is drawn. */
    method OnMarkerEnterAsWritten(reverse: bool, captured: bool)
      requires Valid()
      modifies this`source, this`isAnimating, this`animationRef, this`requested, this`drawn
      ensures Valid()
      ensures drawn == old(drawn) + HoverFrames(routeCoordinates, reverse, captured, captured)
      ensures drawn == old(drawn) && requested == old(requested) && animationRef == old(animationRef) && source == old(source)
      ensures isAnimating == (old(isAnimating) || !captured)
    {
      if !captured {
        isAnimating := true;
        AnimateRoute(reverse, captured);
      }
    }

    /** The `mouseenter` handler reading the live flag: when idle it starts
        the animation of the kept route, which draws every frame (given a
        map and a `route` source) and ends idle; when already animating it
        does nothing. */
    method OnMarkerEnter(reverse: bool)
      requires Valid()
      modifies this`source, this`isAnimating, this`animationRef, this`requested, this`drawn
      ensures Valid()
      ensures old(isAnimating) ==> unchanged(this)
      ensures hasMap && hasSource ==> drawn == old(drawn) + HoverFrames(routeCoordinates, reverse, old(isAnimating), true)
      ensures !old(isAnimating) && hasMap ==>
        var frames := AnimationFrames(routeCoordinates, reverse);
        && drawn == old(drawn) + (if hasSource then frames else [])
        && requested == old(requested) + |frames|
        && animationRef == (if frames == [] then old(animationRef) else Some(requested))
        && !isAnimating
        && (hasSource && frames != [] ==> source == Frame(frames[|frames| - 1]))
        && (!hasSource || frames == [] ==> source == old(source))
      ensures !old(isAnimating) && !hasMap ==>
        && isAnimating && drawn == old(drawn) && requested == old(requested)
        && animationRef == old(animationRef) && source == old(source)
    {
      if !isAnimating {
        isAnimating := true;
        AnimateRoute(reverse, true);
      }
    }

    /** The `mouseleave` handler: the flag is cleared. */
    method OnMarkerLeave()
      requires Valid()
      modifies this`isAnimating
      ensures Valid() && !isAnimating
    {
      isAnimating := false;
    }

    /** Nothing is left for a cleanup to do: no map, and the recorded frame
        (if any) is cancelled. */
    ghost predicate Quiescent()
      reads this
    {
      !hasMap && (animationRef.Some? ==> animationRef.value in cancelled)
    }

    /** The effect's cleanup: the recorded animation frame is cancelled;
        with a map, the markers are cleared, the `route` layer and source
        removed and the map removed. A second cleanup does nothing. */
    method Cleanup()
      requires Valid()
      modifies this`cancelled, this`markers, this`onMap, this`hasLayer, this`hasSource, this`hasMap
      ensures Valid() && Quiescent()
      ensures old(Quiescent()) ==> unchanged(this)
      ensures !hasMap && !hasSource && !hasLayer && markers == [] && onMap == multiset{}
      ensures cancelled == old(cancelled) + (if animationRef.Some? then {animationRef.value} else {})
    {
      if animationRef.Some? {
        cancelled := cancelled + {animationRef.value};
        assert old(Quiescent()) ==> cancelled == old(cancelled);
      }
      if hasMap {
        ClearMarkers();
        if hasLayer {
          hasLayer := false;
        }
        if hasSource {
          hasSource := false;
        }
        hasMap := false;
      }
    }
  }
}
