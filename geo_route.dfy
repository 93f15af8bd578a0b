/** GeoJSON route data as both map widgets read it (RFC 7946), the
    start/finish markers placed on each line, and the bounding box that the
    map view is fitted to. */
module GeoRoute {
  import opened Common

  /** A position (section 3.1.1 of RFC 7946): longitude first, then latitude,
      then any further numbers. */
  type Position = seq<real>

  /** The geometry of a feature: a LineString (section 3.1.4), a
      MultiLineString (section 3.1.5), or anything else. */
  datatype Geometry =
    | LineString(coordinates: seq<Position>)
    | MultiLineString(lines: seq<seq<Position>>)
    | OtherGeometry

  datatype Feature = Feature(geometry: Geometry)

  /** The route file after `response.json()`: a string, a falsy value, or an
      object, which may or may not have a `features` member. */
  datatype RouteData = Text(text: string) | Falsy | Object(features: Option<seq<Feature>>)

  /** The guard of `updateRouteDisplay`: not a string, not falsy, and has `features`. */
  predicate HasFeatures(data: RouteData) {
    data.Object? && data.features.Some?
  }

  // ---------------------------------------------------------------------
  // Flattening

  /** `lines.reduce((acc, line) => acc.concat(line), [])`. */
  function Flatten(lines: seq<seq<Position>>): seq<Position> {
    if lines == [] then [] else Flatten(lines[..|lines| - 1]) + lines[|lines| - 1]
  }

  /** Flattening maps concatenation of line lists to concatenation of
      positions. */
  lemma {:induction false} FlattenAppend(a: seq<seq<Position>>, b: seq<seq<Position>>)
    ensures Flatten(a + b) == Flatten(a) + Flatten(b)
    decreases |b|
  {
    if b != [] {
      var n := |b|;
      assert (a + b)[..|a + b| - 1] == a + b[..n - 1];
      FlattenAppend(a, b[..n - 1]);
    } else {
      assert a + b == a;
    }
  }

  /** A MultiLineString with a single line flattens to that line. */
  lemma FlattenSingle(l: seq<Position>)
    ensures Flatten([l]) == l
  {
    assert [l][..0] == [];
  }

  /** A position is in the flattened list exactly when it is on one of the lines. */
  lemma {:induction false} FlattenMembers(lines: seq<seq<Position>>, c: Position)
    ensures c in Flatten(lines) <==> exists i :: 0 <= i < |lines| && c in lines[i]
  {
    if lines != [] {
      var n := |lines|;
      FlattenMembers(lines[..n - 1], c);
      if c in Flatten(lines[..n - 1]) {
        var i :| 0 <= i < n - 1 && c in lines[..n - 1][i];
        assert c in lines[i];
      }
      if exists i :: 0 <= i < n && c in lines[i] {
        var i :| 0 <= i < n && c in lines[i];
        if i < n - 1 { assert c in lines[..n - 1][i]; }
      }
    }
  }

  // ---------------------------------------------------------------------
  // Markers

  datatype MarkerKind = Start | Finish

  /** A marker placed on the map at a position. */
  datatype Marker = Marker(kind: MarkerKind, at: Position)

  /** The markers of one line: start at its first position, finish at its
      last, none for an empty line. */
  function LineMarkers(line: seq<Position>): seq<Marker> {
    if line == [] then [] else [Marker(Start, line[0]), Marker(Finish, line[|line| - 1])]
  }

  /** The markers of a list of lines, line by line. */
  function MarkersOf(lines: seq<seq<Position>>): seq<Marker> {
    if lines == [] then [] else MarkersOf(lines[..|lines| - 1]) + LineMarkers(lines[|lines| - 1])
  }

  /** The number of non-empty lines. */
  function NonEmptyCount(lines: seq<seq<Position>>): nat {
    if lines == [] then 0 else NonEmptyCount(lines[..|lines| - 1]) + (if lines[|lines| - 1] == [] then 0 else 1)
  }

  /** One more line: its markers follow those of the lines before it. */
  lemma MarkersOfSnoc(lines: seq<seq<Position>>, l: seq<Position>)
    ensures MarkersOf(lines + [l]) == MarkersOf(lines) + LineMarkers(l)
  {
    assert (lines + [l])[..|lines|] == lines;
  }

  /** The markers of joined line lists are the markers of each, joined. */
  lemma {:induction false} MarkersOfAppend(a: seq<seq<Position>>, b: seq<seq<Position>>)
    ensures MarkersOf(a + b) == MarkersOf(a) + MarkersOf(b)
    decreases |b|
  {
    if b == [] {
      assert a + b == a;
    } else {
      var n := |b|;
      var front, last := b[..n - 1], b[n - 1];
      assert a + b == (a + front) + [last];
      assert b == front + [last];
      MarkersOfSnoc(a + front, last);
      MarkersOfSnoc(front, last);
      MarkersOfAppend(a, front);
    }
  }

  /** Exactly two markers per non-empty line, alternating start and finish:
      the even-numbered ones are starts, the odd-numbered ones finishes. */
  lemma {:induction false} MarkersOfCount(lines: seq<seq<Position>>)
    ensures |MarkersOf(lines)| == 2 * NonEmptyCount(lines)
    ensures forall i :: 0 <= i < |MarkersOf(lines)| ==> MarkersOf(lines)[i].kind == (if i % 2 == 0 then Start else Finish)
  {
    if lines != [] {
      MarkersOfCount(lines[..|lines| - 1]);
    }
  }

  /** The pair of markers for the i-th line comes right after the pairs of
      the non-empty lines before it, on its first and last position. */
  lemma MarkersOfLine(lines: seq<seq<Position>>, i: nat)
    requires i < |lines| && lines[i] != []
    ensures var k := NonEmptyCount(lines[..i]);
      2 * k + 1 < |MarkersOf(lines)|
      && MarkersOf(lines)[2 * k] == Marker(Start, lines[i][0])
      && MarkersOf(lines)[2 * k + 1] == Marker(Finish, lines[i][|lines[i]| - 1])
  {
    assert lines == lines[..i] + ([lines[i]] + lines[i + 1..]);
    MarkersOfAppend(lines[..i], [lines[i]] + lines[i + 1..]);
    MarkersOfAppend([lines[i]], lines[i + 1..]);
    assert MarkersOf([lines[i]]) == LineMarkers(lines[i]) by { assert [lines[i]][..0] == []; }
    MarkersOfCount(lines[..i]);
  }

  // ---------------------------------------------------------------------
  // Bounds

  /** A longitude/latitude box: `LngLatBounds` once something was added to it. */
  datatype Box = Box(west: real, south: real, east: real, north: real)

  predicate Contains(b: Box, c: Position) {
    |c| >= 2 && b.west <= c[0] <= b.east && b.south <= c[1] <= b.north
  }

  predicate Covers(outer: Box, inner: Box) {
    outer.west <= inner.west && inner.east <= outer.east && outer.south <= inner.south && inner.north <= outer.north
  }

  function Min(a: real, b: real): real { if a <= b then a else b }
  function Max(a: real, b: real): real { if a <= b then b else a }

  /** `bounds.extend([c[0], c[1]])`; an empty bounds object becomes the
      single point. */
  function Extend(b: Option<Box>, c: Position): (r: Box)
    requires |c| >= 2
  {
    match b
    case None => Box(c[0], c[1], c[0], c[1])
    case Some(x) => Box(Min(x.west, c[0]), Min(x.south, c[1]), Max(x.east, c[0]), Max(x.north, c[1]))
  }

  /** Extending bounds by every position that has at least two numbers, in order. */
  function ExtendAll(b: Option<Box>, coords: seq<Position>): Option<Box> {
    if coords == [] then b
    else
      var r := ExtendAll(b, coords[..|coords| - 1]);
      var c := coords[|coords| - 1];
      if |c| >= 2 then Some(Extend(r, c)) else r
  }

  /** The extended box holds the old box and every position with at least
      two numbers; it is empty only if both were; and it is the smallest such
      box: any box holding the old box and those positions covers it. */
  lemma {:induction false} ExtendAllBounds(b: Option<Box>, coords: seq<Position>, other: Box)
    ensures var r := ExtendAll(b, coords);
      && (forall c :: c in coords && |c| >= 2 ==> r.Some? && Contains(r.value, c))
      && (b.Some? ==> r.Some? && Covers(r.value, b.value))
      && (r.None? <==> b.None? && forall c :: c in coords ==> |c| < 2)
      && (r.Some? && (b.Some? ==> Covers(other, b.value)) && (forall c :: c in coords && |c| >= 2 ==> Contains(other, c))
          ==> Covers(other, r.value))
  {
    if coords != [] {
      var n := |coords|;
      var p := coords[..n - 1];
      ExtendAllBounds(b, p, other);
      assert forall c :: c in p ==> c in coords;
      assert coords == p + [coords[n - 1]];
    }
  }

  /** The forEach that extends bounds by each position of a line. */
  method ExtendBounds(b: Option<Box>, coords: seq<Position>) returns (r: Option<Box>)
    ensures r == ExtendAll(b, coords)
  {
    r := b;
    var i := 0;
    while i < |coords|
      invariant 0 <= i <= |coords|
      invariant r == ExtendAll(b, coords[..i])
    {
      assert coords[..i + 1][..i] == coords[..i];
      if |coords[i]| >= 2 {
        r := Some(Extend(r, coords[i]));
      }
      i := i + 1;
    }
    assert coords[..i] == coords;
  }

  /** The bounds of a list of lines, every line's positions in order. */
  function LinesBounds(lines: seq<seq<Position>>): Option<Box> {
    if lines == [] then None else ExtendAll(LinesBounds(lines[..|lines| - 1]), lines[|lines| - 1])
  }

  /** The bounds of a list of lines hold every position with at least two
      numbers on every line, and are empty only when there is none. */
  lemma {:induction false} LinesBoundsCover(lines: seq<seq<Position>>)
    ensures forall i, c :: 0 <= i < |lines| && c in lines[i] && |c| >= 2 ==>
      LinesBounds(lines).Some? && Contains(LinesBounds(lines).value, c)
    ensures LinesBounds(lines).None? <==> forall i, c :: 0 <= i < |lines| && c in lines[i] ==> |c| < 2
  {
    if lines != [] {
      var n := |lines|;
      var p := lines[..n - 1];
      LinesBoundsCover(p);
      var b := LinesBounds(p);
      forall i, c | 0 <= i < n && c in lines[i] && |c| >= 2
        ensures LinesBounds(lines).Some? && Contains(LinesBounds(lines).value, c)
      {
        ExtendAllBounds(b, lines[n - 1], Box(0.0, 0.0, 0.0, 0.0));
        if i < n - 1 {
          assert c in p[i];
          ContainsWithin(b.value, LinesBounds(lines).value, c);
        }
      }
      ExtendAllBounds(b, lines[n - 1], Box(0.0, 0.0, 0.0, 0.0));
      if b.None? && forall c :: c in lines[n - 1] ==> |c| < 2 {
        forall i, c | 0 <= i < n && c in lines[i] ensures |c| < 2 {
          if i < n - 1 { assert c in p[i]; }
        }
      }
    }
  }

  lemma ContainsWithin(inner: Box, outer: Box, c: Position)
    requires Contains(inner, c) && Covers(outer, inner)
    ensures Contains(outer, c)
  {
  }

  // ---------------------------------------------------------------------
  // Removing markers

  /** `markers.forEach(marker => marker.remove())`: takes each tracked
      marker off the map. */
  method RemoveMarkers(onMap: multiset<Marker>, tracked: seq<Marker>) returns (rest: multiset<Marker>)
    ensures rest == onMap - multiset(tracked)
  {
    rest := onMap;
    var i := 0;
    while i < |tracked|
      invariant 0 <= i <= |tracked|
      invariant rest == onMap - multiset(tracked[..i])
    {
      assert tracked[..i + 1] == tracked[..i] + [tracked[i]];
      rest := rest - multiset{tracked[i]};
      i := i + 1;
    }
    assert tracked[..i] == tracked;
  }
}
