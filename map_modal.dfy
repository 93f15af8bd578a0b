/** The route map shown in a modal dialog: a map created each time the
    dialog opens, the route file as its `route` source, start and finish
    markers on each LineString, and the view fitted to the LineStrings. */
module MapModal {
  import opened Common
  import opened GeoRoute
  import MapInline

  /** The lines the modal reads: the positions of each LineString feature,
      in feature order; other geometry, MultiLineString included, is skipped. */
  function ModalLines(fs: seq<Feature>): seq<seq<Position>> {
    if fs == [] then []
    else
      ModalLines(fs[..|fs| - 1]) +
        match fs[|fs| - 1].geometry
        case LineString(cs) => [cs]
        case _ => []
  }

  /** The modal's lines are the LineString features' positions, so a route
      with no MultiLineString has the inline map's lines, and a route with
      no LineString has no line at all. */
  lemma {:induction false} ModalLinesOfFeatures(fs: seq<Feature>)
    ensures (forall i :: 0 <= i < |fs| ==> !fs[i].geometry.MultiLineString?) ==> ModalLines(fs) == MapInline.InlineLines(fs)
    ensures (forall i :: 0 <= i < |fs| ==> !fs[i].geometry.LineString?) ==> ModalLines(fs) == []
    ensures |ModalLines(fs)| <= |MapInline.InlineLines(fs)|
  {
    if fs != [] {
      var p := fs[..|fs| - 1];
      ModalLinesOfFeatures(p);
      assert forall i :: 0 <= i < |p| ==> p[i] == fs[i];
    }
  }

  /** One more feature: a LineString adds its positions as a line, other
      geometry adds nothing; and a line's markers and box follow those of
      the lines before it. */
  lemma ModalLinesStep(fs: seq<Feature>, i: nat)
    requires i < |fs|
    ensures fs[i].geometry.LineString? ==> ModalLines(fs[..i + 1]) == ModalLines(fs[..i]) + [fs[i].geometry.coordinates]
    ensures !fs[i].geometry.LineString? ==> ModalLines(fs[..i + 1]) == ModalLines(fs[..i])
    ensures forall cs :: MarkersOf(ModalLines(fs[..i]) + [cs]) == MarkersOf(ModalLines(fs[..i])) + LineMarkers(cs)
    ensures forall cs :: LinesBounds(ModalLines(fs[..i]) + [cs]) == ExtendAll(LinesBounds(ModalLines(fs[..i])), cs)
  {
    assert fs[..i + 1][..i] == fs[..i];
    var lines := ModalLines(fs[..i]);
    forall cs ensures MarkersOf(lines + [cs]) == MarkersOf(lines) + LineMarkers(cs)
      && LinesBounds(lines + [cs]) == ExtendAll(LinesBounds(lines), cs)
    {
      assert (lines + [cs])[..|lines|] == lines;
    }
  }

  /** The feature loop of `updateRouteDisplay`: for each LineString, a start
      and a finish marker when it has positions, and the bounds extended by
      each of its positions. */
  method PlaceLineStrings(fs: seq<Feature>) returns (placed: seq<Marker>, bounds: Option<Box>)
    ensures placed == MarkersOf(ModalLines(fs))
    ensures bounds == LinesBounds(ModalLines(fs))
  {
    placed, bounds := [], None;
    var i := 0;
    while i < |fs|
      invariant 0 <= i <= |fs|
      invariant placed == MarkersOf(ModalLines(fs[..i]))
      invariant bounds == LinesBounds(ModalLines(fs[..i]))
    {
      ModalLinesStep(fs, i);
      if fs[i].geometry.LineString? {
        var cs := fs[i].geometry.coordinates;
        if cs != [] {
          placed := placed + [Marker(Start, cs[0]), Marker(Finish, cs[|cs| - 1])];
        }
        bounds := ExtendBounds(bounds, cs);
      }
      i := i + 1;
    }
    assert fs[..i] == fs;
  }

  /** The box the modal fits to holds every position (with at least two
      numbers) of every LineString, and is empty only when there is none. */
  lemma ModalBoundsCover(fs: seq<Feature>)
    ensures forall i, c :: 0 <= i < |fs| && fs[i].geometry.LineString? && c in fs[i].geometry.coordinates && |c| >= 2 ==>
      LinesBounds(ModalLines(fs)).Some? && Contains(LinesBounds(ModalLines(fs)).value, c)
  {
    LinesBoundsCover(ModalLines(fs));
    ModalLinesHold(fs);
  }

  /** Every LineString feature's positions are one of the modal's lines. */
  lemma {:induction false} ModalLinesHold(fs: seq<Feature>)
    ensures forall i :: 0 <= i < |fs| && fs[i].geometry.LineString? ==> fs[i].geometry.coordinates in ModalLines(fs)
  {
    if fs != [] {
      var p := fs[..|fs| - 1];
      ModalLinesHold(p);
      assert forall i :: 0 <= i < |p| ==> p[i] == fs[i];
    }
  }

  /** The component's refs: the map with its `route` source and layer, the
      markers, and the boxes the view was fitted to. */
  class RouteModal {
    var hasMap: bool
    var hasSource: bool
    var hasLayer: bool
    var source: RouteData
    /** `markersRef.current`. */
    var markers: seq<Marker>
    /** The markers actually placed and not yet removed. */
    var onMap: multiset<Marker>
    /** The boxes the view was fitted to, in order; None is an empty box. */
    var fitted: seq<Option<Box>>

    ghost predicate Valid()
      reads this
    {
      && onMap == multiset(markers)
      && (!hasMap ==> markers == [] && !hasSource)
      && (hasLayer ==> hasSource)
    }

    /** After `updateRouteDisplay` with features fs: markers for the
        LineStrings, and the view fitted to their box. */
    ghost predicate Shows(fs: seq<Feature>, prevFitted: seq<Option<Box>>)
      reads this
    {
      var lines := ModalLines(fs);
      markers == MarkersOf(lines) && fitted == prevFitted + [LinesBounds(lines)]
    }

    constructor()
      ensures Valid() && !hasMap && markers == [] && fitted == []
    {
      hasMap := false;
      hasSource := false;
      hasLayer := false;
      source := Falsy;
      markers := [];
      onMap := multiset{};
      fitted := [];
    }

    /** `clearMarkers`: every tracked marker is removed and none is tracked. */
    method ClearMarkers()
      requires Valid()
      modifies this`markers, this`onMap
      ensures Valid()
      ensures markers == [] && onMap == old(onMap) - multiset(old(markers)) && onMap == multiset{}
    {
      onMap := RemoveMarkers(onMap, markers);
      markers := [];
    }

    /** `updateRouteDisplay`: without a map, or for data that is a string,
        falsy or without features, nothing happens. Otherwise the old
        markers go, each non-empty LineString gets a start and a finish
        marker, and the view is fitted to the LineStrings' box, even when it
        is empty. */
    method UpdateRouteDisplay(data: RouteData)
      requires Valid()
      modifies this`markers, this`onMap, this`fitted
      ensures Valid()
      ensures !old(hasMap) || !HasFeatures(data) ==> unchanged(this)
      ensures old(hasMap) && HasFeatures(data) ==> Shows(data.features.value, old(fitted))
    {
      if !hasMap || !HasFeatures(data) {
        return;
      }
      var fs := data.features.value;
      ClearMarkers();
      var placed, bounds := PlaceLineStrings(fs);
      Record(placed, bounds);
    }

    /** What the feature loop does to the component: the placed markers go
        on the map and are tracked, and the view is fitted to the bounds. */
    method Record(placed: seq<Marker>, bounds: Option<Box>)
      requires Valid() && hasMap && markers == []
      modifies this`markers, this`onMap, this`fitted
      ensures Valid()
      ensures markers == placed && onMap == old(onMap) + multiset(placed) && fitted == old(fitted) + [bounds]
    {
      markers := placed;
      onMap := onMap + multiset(placed);
      fitted := fitted + [bounds];
    }

    /** The effect run for the dialog: nothing without a container or while
        closed; otherwise a new map (with no route source or layer) replaces
        any old one. When the route file was fetched and parsed, it becomes
        the `route` source, the display is updated and the layer added; a
        failed fetch or parse is caught and leaves the new map empty. */
    method Effect(containerExists: bool, open: bool, fetched: Option<RouteData>)
      requires Valid()
      modifies this`hasMap, this`hasSource, this`hasLayer, this`source, this`markers, this`onMap, this`fitted
      ensures Valid()
      ensures !containerExists || !open ==> unchanged(this)
      ensures containerExists && open ==> hasMap
      ensures containerExists && open && fetched.None? ==>
        !hasSource && !hasLayer && markers == old(markers) && fitted == old(fitted)
      ensures containerExists && open && fetched.Some? ==> hasSource && hasLayer && source == fetched.value
      ensures containerExists && open && fetched.Some? && HasFeatures(fetched.value) ==>
        Shows(fetched.value.features.value, old(fitted))
      ensures containerExists && open && fetched.Some? && !HasFeatures(fetched.value) ==>
        markers == old(markers) && fitted == old(fitted)
    {
      if !containerExists || !open {
        return;
      }
      hasMap := true;
      hasSource := false;
      hasLayer := false;
      if fetched.None? {
        return;
      }
      hasSource := true;
      source := fetched.value;
      UpdateRouteDisplay(fetched.value);
      hasLayer := true;
    }

    /** The effect's cleanup: with a map, the markers are cleared and the
        map (with its source and layer) removed; without one, nothing. */
    method Cleanup()
      requires Valid()
      modifies this`hasMap, this`hasSource, this`hasLayer, this`markers, this`onMap
      ensures Valid()
      ensures !hasMap && !hasSource && !hasLayer && markers == [] && onMap == multiset{}
      ensures !old(hasMap) ==> unchanged(this)
    {
      if hasMap {
        ClearMarkers();
        hasMap := false;
        hasSource := false;
        hasLayer := false;
      }
    }
  }
}
