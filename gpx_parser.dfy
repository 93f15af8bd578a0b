/** The GPX track pipeline: track points read from the `trkpt` elements of
    a GPX 1.1 document, and the running sum of segment distances along them. */
module GpxParser {
  import opened Common

  /** One `trkpt` element as the XML reader delivers it: its `lat` and `lon`
      attributes and the text of its first `<time>` child, each possibly absent. */
  datatype Trkpt = Trkpt(lat: Option<string>, lon: Option<string>, time: Option<string>)

  /** A parsed track point. */
  datatype GpxPoint = GpxPoint(lat: JsNumber, lon: JsNumber, time: string)

  /** The segment distance between two positions given in degrees
      (latitude, longitude, latitude, longitude); the haversine formula of
      the source is not modelled, only the properties listed here. */
  type Haversine = (real, real, real, real) -> real

  // ---------------------------------------------------------------------
  // parseFloat

  /** JavaScript white space and line terminators, which `parseFloat` skips. */
  predicate IsJsSpace(c: char) {
    c == ' ' || c == '\t' || c == '\n' || c == '\r' || c == '\U{000B}' || c == '\U{000C}'
    || c == '\U{00A0}' || c == '\U{FEFF}' || c == '\U{1680}' || ('\U{2000}' <= c <= '\U{200A}')
    || c == '\U{2028}' || c == '\U{2029}' || c == '\U{202F}' || c == '\U{205F}' || c == '\U{3000}'
  }

  function TrimStart(s: string): (t: string)
    ensures |t| <= |s| && t == s[|s| - |t|..]
    ensures t == [] || !IsJsSpace(t[0])
  {
    if s != [] && IsJsSpace(s[0]) then TrimStart(s[1..]) else s
  }

  /** The longest prefix of s made of decimal digits. */
  function DigitRun(s: string): (d: string)
    ensures |d| <= |s| && d == s[..|d|] && AllDigits(d)
    ensures |d| < |s| ==> !IsDigit(s[|d|])
  {
    if s != [] && IsDigit(s[0]) then [s[0]] + DigitRun(s[1..]) else []
  }

  /** The exponent part `e[+-]digits` at the head of s, or 0 when there is none. */
  function ExponentOf(s: string): int {
    if |s| >= 2 && (s[0] == 'e' || s[0] == 'E') then
      var signed := s[1] == '+' || s[1] == '-';
      var ds := DigitRun(if signed then s[2..] else s[1..]);
      if ds == [] then 0
      else if s[1] == '-' then -(DigitsValue(ds) as int) else DigitsValue(ds)
    else 0
  }

  function Scale(m: real, e: int): real {
    if e >= 0 then m * Pow10(e) as real else m / Pow10(-e) as real
  }

  /** JavaScript `parseFloat`: skip leading white space, read the longest
      prefix that is a decimal literal (sign, digits, fraction, exponent) and
      ignore the rest; NaN when no such prefix exists. */
  function ParseFloat(s: string): JsNumber {
    var t := TrimStart(s);
    if t != [] && t[0] == '-' then Negate(UnsignedLiteral(t[1..]))
    else if t != [] && t[0] == '+' then UnsignedLiteral(t[1..])
    else UnsignedLiteral(t)
  }

  function Negate(x: JsNumber): JsNumber {
    if x.Finite? then Finite(-x.value) else NaN
  }

  /** The unsigned decimal literal at the head of u: integer digits, then
      an optional dot with fraction digits, at least one digit in all. */
  function UnsignedLiteral(u: string): JsNumber {
    var ip := DigitRun(u);
    var rest := u[|ip|..];
    if rest != [] && rest[0] == '.' then
      var fp := DigitRun(rest[1..]);
      if ip == [] && fp == [] then NaN
      else Finite(Scale(Mantissa(ip, fp), ExponentOf(rest[1 + |fp|..])))
    else if ip == [] then NaN
    else Finite(Scale(DigitsValue(ip) as real, ExponentOf(rest)))
  }

  function Mantissa(ip: string, fp: string): real
    requires AllDigits(ip) && AllDigits(fp)
  {
    DigitsValue(ip) as real + DigitsValue(fp) as real / Pow10(|fp|) as real
  }

  /** `parseFloat` reads back the decimal string of every whole number. */
  lemma ParseFloatOfNat(n: nat)
    ensures ParseFloat(NatToString(n)) == Finite(n as real)
  {
    var s := NatToString(n);
    ParseFloatOfDigits(s);
    NatToStringValue(n);
  }

  /** `parseFloat` reads a non-empty string of digits as its decimal value. */
  lemma ParseFloatOfDigits(s: string)
    requires s != [] && AllDigits(s)
    ensures ParseFloat(s) == Finite(DigitsValue(s) as real)
  {
    assert IsDigit(s[0]);
    assert TrimStart(s) == s;
    UnsignedOfDigits(s);
  }

  lemma UnsignedOfDigits(s: string)
    requires s != [] && AllDigits(s)
    ensures UnsignedLiteral(s) == Finite(DigitsValue(s) as real)
  {
    DigitRunAll(s);
    assert s[|s|..] == [];
  }

  lemma {:induction false} DigitRunAll(s: string)
    requires AllDigits(s)
    ensures DigitRun(s) == s
  {
    if s != [] {
      DigitRunAll(s[1..]);
    }
  }

  /** A value that does not begin like a number (after white space, a sign,
      a digit or a dot; and not "Infinity") reads as NaN. */
  lemma ParseFloatNotANumber(s: string)
    requires s != [] && !IsJsSpace(s[0]) && !IsDigit(s[0])
    requires s[0] != '+' && s[0] != '-' && s[0] != '.' && s[0] != 'I'
    ensures ParseFloat(s) == NaN
  {
  }

  // ---------------------------------------------------------------------
  // parseGPX

  /** JavaScript `a || d` on an attribute value: the default when the value
      is absent or empty. */
  function OrDefault(a: Option<string>, d: string): (r: string)
    ensures a.Some? && a.value != [] ==> r == a.value
    ensures a.None? || a.value == [] ==> r == d
  {
    if a.Some? && a.value != [] then a.value else d
  }

  /** The point read from one `trkpt`. */
  function ToPoint(t: Trkpt): GpxPoint {
    GpxPoint(ParseFloat(OrDefault(t.lat, "0")), ParseFloat(OrDefault(t.lon, "0")), OrDefault(t.time, ""))
  }

  /** Defaults: an absent or empty coordinate attribute gives 0, an absent
      `<time>` gives the empty string, a present value is parsed as it is. */
  lemma ToPointDefaults(t: Trkpt)
    ensures t.lat.None? || t.lat.value == [] ==> ToPoint(t).lat == Finite(0.0)
    ensures t.lon.None? || t.lon.value == [] ==> ToPoint(t).lon == Finite(0.0)
    ensures t.lat.Some? && t.lat.value != [] ==> ToPoint(t).lat == ParseFloat(t.lat.value)
    ensures t.lon.Some? && t.lon.value != [] ==> ToPoint(t).lon == ParseFloat(t.lon.value)
    ensures t.time.None? ==> ToPoint(t).time == ""
    ensures t.time.Some? ==> ToPoint(t).time == t.time.value
  {
    ParseFloatOfNat(0);
  }

  /** A present but unreadable coordinate is not replaced by 0: it becomes NaN. */
  lemma UnreadableLatitudeIsNaN(t: Trkpt)
    requires t.lat.Some? && t.lat.value != []
    requires var s := t.lat.value; !IsJsSpace(s[0]) && !IsDigit(s[0]) && s[0] != '+' && s[0] != '-' && s[0] != '.' && s[0] != 'I'
    ensures ToPoint(t).lat == NaN
  {
    ParseFloatNotANumber(t.lat.value);
  }

  /** The point-extraction loop of `parseGPX`: one point per `trkpt`, in
      document order. */
  method ParseGpx(trkpts: seq<Trkpt>) returns (points: seq<GpxPoint>)
    ensures |points| == |trkpts|
    ensures forall i :: 0 <= i < |trkpts| ==> points[i] == ToPoint(trkpts[i])
  {
    points := [];
    var i := 0;
    while i < |trkpts|
      invariant 0 <= i <= |trkpts|
      invariant |points| == i
      invariant forall j :: 0 <= j < i ==> points[j] == ToPoint(trkpts[j])
    {
      var point := ToPoint(trkpts[i]);
      assert forall j :: 0 <= j < i + 1 ==> (points + [point])[j] == ToPoint(trkpts[j]) by {
        assert forall j :: 0 <= j < i ==> (points + [point])[j] == points[j];
      }
      points := points + [point];
      i := i + 1;
    }
  }

  // ---------------------------------------------------------------------
  // calculateDistance

  /** The properties the haversine formula has and that the model relies on:
      a distance is never negative, a point is at distance 0 from itself, and
      the distance does not depend on the direction of travel. */
  ghost predicate IsDistance(hav: Haversine) {
    && (forall a, b, c, d :: hav(a, b, c, d) >= 0.0)
    && (forall a, b :: hav(a, b, a, b) == 0.0)
    && (forall a, b, c, d :: hav(a, b, c, d) == hav(c, d, a, b))
  }

  /** `haversineDistance(p.lat, p.lon, q.lat, q.lon)`: NaN as soon as one
      coordinate is NaN. */
  function Segment(hav: Haversine, p: GpxPoint, q: GpxPoint): (r: JsNumber)
    ensures r.Finite? <==> p.lat.Finite? && p.lon.Finite? && q.lat.Finite? && q.lon.Finite?
  {
    if p.lat.Finite? && p.lon.Finite? && q.lat.Finite? && q.lon.Finite? then
      Finite(hav(p.lat.value, p.lon.value, q.lat.value, q.lon.value))
    else NaN
  }

  lemma SegmentProperties(hav: Haversine, p: GpxPoint, q: GpxPoint)
    requires IsDistance(hav)
    ensures Segment(hav, p, q).Finite? ==> Segment(hav, p, q).value >= 0.0
    ensures Segment(hav, p, q) == Segment(hav, q, p)
    ensures p.lat.Finite? && p.lon.Finite? ==> Segment(hav, p, p) == Finite(0.0)
  {
  }

  /** What `calculateDistance(points)` returns: a leading 0 followed, for
      every later point, by the previous sum plus the segment that ends there. */
  ghost predicate IsCumulative(hav: Haversine, points: seq<GpxPoint>, d: seq<JsNumber>) {
    && |d| == (if points == [] then 1 else |points|)
    && d[0] == Finite(0.0)
    && forall i :: 1 <= i < |points| ==> d[i] == Add(d[i - 1], Segment(hav, points[i - 1], points[i]))
  }

  method CalculateDistance(hav: Haversine, points: seq<GpxPoint>) returns (distances: seq<JsNumber>)
    ensures IsCumulative(hav, points, distances)
  {
    distances := [Finite(0.0)];
    var i := 1;
    while i < |points|
      invariant 1 <= i <= if points == [] then 1 else |points|
      invariant |distances| == i
      invariant distances[0] == Finite(0.0)
      invariant forall k :: 1 <= k < i ==> distances[k] == Add(distances[k - 1], Segment(hav, points[k - 1], points[k]))
    {
      var distance := Segment(hav, points[i - 1], points[i]);
      distances := distances + [Add(distances[i - 1], distance)];
      i := i + 1;
    }
  }

  /** The sums are determined by the points: two results agree everywhere. */
  lemma {:induction false} CumulativeUnique(hav: Haversine, points: seq<GpxPoint>, d1: seq<JsNumber>, d2: seq<JsNumber>)
    requires IsCumulative(hav, points, d1) && IsCumulative(hav, points, d2)
    ensures d1 == d2
  {
    var k := 1;
    while k < |d1|
      invariant 1 <= k <= |d1|
      invariant d1[..k] == d2[..k]
    {
      assert d1[k - 1] == d2[k - 1] by { assert d1[..k][k - 1] == d2[..k][k - 1]; }
      assert d1[..k + 1] == d1[..k] + [d1[k]] && d2[..k + 1] == d2[..k] + [d2[k]];
      k := k + 1;
    }
    assert d1 == d1[..k] && d2 == d2[..k];
  }

  /** With a distance that is never negative the sums never decrease: an
      earlier sum is finite whenever a later one is, and no larger. */
  lemma {:induction false} CumulativeNonDecreasing(hav: Haversine, points: seq<GpxPoint>, d: seq<JsNumber>, i: nat, j: nat)
    requires IsDistance(hav) && IsCumulative(hav, points, d)
    requires i <= j < |d|
    ensures d[j].Finite? ==> d[i].Finite? && d[i].value <= d[j].value
    decreases j - i
  {
    if i < j {
      CumulativeNonDecreasing(hav, points, d, i, j - 1);
      SegmentProperties(hav, points[j - 1], points[j]);
    }
  }

  /** When every point has readable coordinates every sum is a finite number. */
  lemma {:induction false} CumulativeFinite(hav: Haversine, points: seq<GpxPoint>, d: seq<JsNumber>, j: nat)
    requires IsCumulative(hav, points, d)
    requires forall k :: 0 <= k < |points| ==> points[k].lat.Finite? && points[k].lon.Finite?
    requires j < |d|
    ensures d[j].Finite?
  {
    if j > 0 {
      CumulativeFinite(hav, points, d, j - 1);
    }
  }
}
