/**
 * Geometry of the seeker's exclusion shapes, in degrees of latitude and
 * longitude: the rings of a radar "donut", the half-plane quadrilaterals and
 * dividing lines of the matching questions, and the perpendicular bisector of
 * a thermometer move with its half-plane.
 */
module Shapes {

  datatype LatLng = LatLng(lat: real, lng: real)

  /**
   * The floating-point maths the shape builder calls and the model does not
   * compute: cosine and sine of an angle given in degrees, and square root.
   */
  datatype Maths = Maths(cosDeg: real -> real, sinDeg: real -> real, sqrt: real -> real)

  datatype Style =
    | Shaded        // striped grey fill: the hider is not in here
    | Boundary      // the outline of a radar circle, not filled
    | DividingLine  // the line a matching or thermometer question splits the map on
    | Movement      // the dashed line of a thermometer move
    | ManualShade   // a circle drawn from the manual-shading dialog

  /** The map layers the shape builder adds: Leaflet circles, polygons and polylines. */
  datatype Shape =
    | Circle(center: LatLng, radius: real, style: Style)
    | Polygon(rings: seq<seq<LatLng>>, style: Style)
    | Polyline(points: seq<LatLng>, style: Style)

  const MetersPerDegree: real := 111000.0
  const NumPoints: nat := 64
  /** Radius of the donut's outer ring, in meters. */
  const OuterRadius: real := 50000.0
  /** How far the half-planes reach (meters for matching, degree multiples for thermometer). */
  const LargeDistance: real := 50000.0
  /** Half the length of a dividing line, in degrees. */
  const LineLength: real := 0.5

  /** The angle, in degrees, of ring vertex `i`. */
  function Angle(i: nat): real {
    (i * 360) as real / NumPoints as real
  }

  /** Vertex `i` of the ring of `radius` meters around `c`. */
  function RingPoint(c: LatLng, i: nat, radius: real, m: Maths): LatLng
    requires m.cosDeg(c.lat) != 0.0
  {
    LatLng(c.lat + (radius / MetersPerDegree) * m.cosDeg(Angle(i)),
           c.lng + (radius / (MetersPerDegree * m.cosDeg(c.lat))) * m.sinDeg(Angle(i)))
  }

  /** The ring at `radius`: vertices 0 to 64 in order of increasing angle. */
  function Ring(c: LatLng, radius: real, m: Maths): (r: seq<LatLng>)
    requires m.cosDeg(c.lat) != 0.0
    ensures |r| == NumPoints + 1
    ensures forall i :: 0 <= i <= NumPoints ==> r[i] == RingPoint(c, i, radius, m)
  {
    seq(NumPoints + 1, i requires 0 <= i <= NumPoints => RingPoint(c, i, radius, m))
  }

  function Reversed<T>(s: seq<T>): seq<T> {
    seq(|s|, j requires 0 <= j < |s| => s[|s| - 1 - j])
  }

  lemma ReversedSnoc<T>(s: seq<T>, x: T)
    ensures Reversed(s + [x]) == [x] + Reversed(s)
  {
    var l, r := Reversed(s + [x]), [x] + Reversed(s);
    assert |l| == |r|;
    forall j | 0 <= j < |l| ensures l[j] == r[j] {
      if j > 0 { assert r[j] == Reversed(s)[j - 1]; }
    }
  }

  /**
   * The donut loop: for i = 0..64 inclusive, vertex i of the outer ring is
   * pushed onto the outer list and vertex i of the inner ring is unshifted
   * onto the inner list, so the inner ring comes out wound the other way.
   */
  method BuildDonut(c: LatLng, innerRadius: real, m: Maths) returns (outer: seq<LatLng>, inner: seq<LatLng>)
    requires m.cosDeg(c.lat) != 0.0
    ensures |outer| == NumPoints + 1 && |inner| == NumPoints + 1
    ensures forall i :: 0 <= i <= NumPoints ==> outer[i] == RingPoint(c, i, OuterRadius, m)
    ensures forall j :: 0 <= j <= NumPoints ==> inner[j] == RingPoint(c, NumPoints - j, innerRadius, m)
    ensures outer == Ring(c, OuterRadius, m) && inner == Reversed(Ring(c, innerRadius, m))
  {
    ghost var innerRing := Ring(c, innerRadius, m);
    outer, inner := [], [];
    var i := 0;
    while i <= NumPoints
      invariant 0 <= i <= NumPoints + 1
      invariant outer == Ring(c, OuterRadius, m)[..i]
      invariant inner == Reversed(innerRing[..i])
    {
      outer := outer + [RingPoint(c, i, OuterRadius, m)];
      ReversedSnoc(innerRing[..i], RingPoint(c, i, innerRadius, m));
      assert innerRing[..i + 1] == innerRing[..i] + [RingPoint(c, i, innerRadius, m)];
      inner := [RingPoint(c, i, innerRadius, m)] + inner;
      i := i + 1;
    }
    assert innerRing[..i] == innerRing;
  }

  /** Degrees of latitude covered by the large distance. */
  function LatReach(): (d: real)
    ensures d > 0.0
  {
    LargeDistance / MetersPerDegree
  }

  /** Degrees of longitude covered by the large distance at latitude `lat`. */
  function LngReach(lat: real, m: Maths): (d: real)
    requires m.cosDeg(lat) > 0.0
    ensures d > 0.0
  {
    LargeDistance / (MetersPerDegree * m.cosDeg(lat))
  }

  datatype Direction = North | South | East | West

  /**
   * The quadrilateral shaded for a directional answer about `c`: "North"
   * shades the strip south of `c`, "South" the strip north, "East" the strip
   * west and "West" the strip east. The shaded side never reaches past `c`
   * in the answered direction; two vertices lie on the line through `c`
   * and two strictly beyond it.
   */
  function HalfPlaneBounds(c: LatLng, d: Direction, m: Maths): (b: seq<LatLng>)
    requires m.cosDeg(c.lat) > 0.0
    ensures |b| == 4
    ensures d == North ==> (forall v :: v in b ==> v.lat <= c.lat) &&
                           b[2].lat == c.lat && b[3].lat == c.lat && b[0].lat < c.lat && b[1].lat < c.lat
    ensures d == South ==> (forall v :: v in b ==> v.lat >= c.lat) &&
                           b[0].lat == c.lat && b[1].lat == c.lat && b[2].lat > c.lat && b[3].lat > c.lat
    ensures d == East ==> (forall v :: v in b ==> v.lng <= c.lng) &&
                          b[2].lng == c.lng && b[3].lng == c.lng && b[0].lng < c.lng && b[1].lng < c.lng
    ensures d == West ==> (forall v :: v in b ==> v.lng >= c.lng) &&
                          b[0].lng == c.lng && b[1].lng == c.lng && b[2].lng > c.lng && b[3].lng > c.lng
  {
    var dLat, dLng := LatReach(), LngReach(c.lat, m);
    match d
    case North =>
      [LatLng(c.lat - dLat, c.lng - dLng), LatLng(c.lat - dLat, c.lng + dLng),
       LatLng(c.lat, c.lng + dLng), LatLng(c.lat, c.lng - dLng)]
    case South =>
      [LatLng(c.lat, c.lng - dLng), LatLng(c.lat, c.lng + dLng),
       LatLng(c.lat + dLat, c.lng + dLng), LatLng(c.lat + dLat, c.lng - dLng)]
    case East =>
      [LatLng(c.lat - dLat, c.lng - dLng), LatLng(c.lat + dLat, c.lng - dLng),
       LatLng(c.lat + dLat, c.lng), LatLng(c.lat - dLat, c.lng)]
    case West =>
      [LatLng(c.lat - dLat, c.lng), LatLng(c.lat + dLat, c.lng),
       LatLng(c.lat + dLat, c.lng + dLng), LatLng(c.lat - dLat, c.lng + dLng)]
  }

  /** The shaded strip spans `c` across the dividing line, on both sides. */
  lemma HalfPlaneSpans(c: LatLng, d: Direction, m: Maths)
    requires m.cosDeg(c.lat) > 0.0
    ensures var b := HalfPlaneBounds(c, d, m);
      |b| == 4 &&
      ((d == North || d == South) ==> exists v, w :: v in b && w in b && v.lng < c.lng < w.lng) &&
      ((d == East || d == West) ==> exists v, w :: v in b && w in b && v.lat < c.lat < w.lat)
  {
    var b := HalfPlaneBounds(c, d, m);
    if d == North || d == South {
      assert b[0] in b && b[1] in b && b[0].lng < c.lng < b[1].lng;
    } else {
      assert b[0] in b && b[1] in b && b[0].lat < c.lat < b[1].lat;
    }
  }

  /**
   * The dividing line of a matching question: along the parallel of `c`
   * for north/south, along its meridian otherwise.
   */
  function MatchingLine(c: LatLng, northSouth: bool): (line: seq<LatLng>)
    ensures |line| == 2
    ensures northSouth ==> line[0].lat == c.lat == line[1].lat && line[0].lng == c.lng - LineLength && line[1].lng == c.lng + LineLength
    ensures !northSouth ==> line[0].lng == c.lng == line[1].lng && line[0].lat == c.lat - LineLength && line[1].lat == c.lat + LineLength
  {
    if northSouth then [LatLng(c.lat, c.lng - LineLength), LatLng(c.lat, c.lng + LineLength)]
    else [LatLng(c.lat - LineLength, c.lng), LatLng(c.lat + LineLength, c.lng)]
  }

  /** The midpoint of a segment. */
  function Midpoint(p: LatLng, q: LatLng): LatLng {
    LatLng((p.lat + q.lat) / 2.0, (p.lng + q.lng) / 2.0)
  }

  /** The squared length of the move from `start` to `end`, in squared degrees. */
  function SquaredMove(start: LatLng, end: LatLng): real {
    (end.lat - start.lat) * (end.lat - start.lat) + (end.lng - start.lng) * (end.lng - start.lng)
  }

  /**
   * Which side of the bisector of `start`-`end` a point lies on: the dot
   * product of its offset from the midpoint with the movement (dlat, dlng).
   * Zero on the bisector, and of opposite signs at `start` and `end`.
   */
  function Side(start: LatLng, end: LatLng, p: LatLng): real {
    var mid := Midpoint(start, end);
    (p.lat - mid.lat) * (end.lat - start.lat) + (p.lng - mid.lng) * (end.lng - start.lng)
  }

  /** The moved-to point is half the squared move on one side, the start point as far on the other. */
  lemma EndpointSides(start: LatLng, end: LatLng)
    ensures Side(start, end, end) == SquaredMove(start, end) / 2.0
    ensures Side(start, end, start) == -Side(start, end, end)
  {
  }

  /**
   * The length of the move's perpendicular (-dy, dx), computed as the source
   * does, as the square root of perpDx^2 + perpDy^2.
   */
  function PerpLength(start: LatLng, end: LatLng, m: Maths): real {
    var perpDx, perpDy := -(end.lat - start.lat), end.lng - start.lng;
    m.sqrt(perpDx * perpDx + perpDy * perpDy)
  }

  /**
   * The half-plane quadrilateral on the dividing line `a`-`b`: its far edge
   * is the line shifted by 50000 times the unit vector (-normDx, normDy),
   * listed first; or by its negation, listed last, when `farFirst` is false.
   */
  function HalfPlane(a: LatLng, b: LatLng, normDx: real, normDy: real, farFirst: bool): seq<LatLng> {
    if farFirst then
      [LatLng(a.lat - normDx * LargeDistance, a.lng + normDy * LargeDistance),
       LatLng(b.lat - normDx * LargeDistance, b.lng + normDy * LargeDistance), b, a]
    else
      [a, b, LatLng(b.lat + normDx * LargeDistance, b.lng - normDy * LargeDistance),
       LatLng(a.lat + normDx * LargeDistance, a.lng - normDy * LargeDistance)]
  }

  /**
   * The thermometer bisector and half-plane. The unit perpendicular of the
   * movement (dx, dy) = (dlng, dlat) is (-dy, dx) / length; the dividing line
   * runs 0.5 either way of the midpoint along it, and the half-plane reaches
   * 50000 unit movement vectors beyond the line: toward `end` when
   * `towardEnd` holds, toward `start` otherwise. A zero length (no
   * movement) gives no shapes.
   */
  function Bisector(start: LatLng, end: LatLng, towardEnd: bool, m: Maths): (s: seq<Shape>)
    ensures s == [] <==> PerpLength(start, end, m) == 0.0
    ensures s != [] ==>
      |s| == 3 && s[0].Polyline? && s[0].style == DividingLine && |s[0].points| == 2 &&
      s[1].Polygon? && s[1].style == Shaded && |s[1].rings| == 1 && |s[1].rings[0]| == 4 &&
      s[2] == Polyline([start, end], Movement)
  {
    var length := PerpLength(start, end, m);
    if length == 0.0 then []
    else
      var normDx, normDy := -(end.lat - start.lat) / length, (end.lng - start.lng) / length;
      var mid := Midpoint(start, end);
      var a := LatLng(mid.lat - normDy * LineLength, mid.lng - normDx * LineLength);
      var b := LatLng(mid.lat + normDy * LineLength, mid.lng + normDx * LineLength);
      [Polyline([a, b], DividingLine), Polygon([HalfPlane(a, b, normDx, normDy, towardEnd)], Shaded),
       Polyline([start, end], Movement)]
  }

  /** Dividing by the same length commutes with scaling. */
  lemma ScaleOverLength(x: real, y: real, length: real)
    requires length != 0.0
    ensures (x / length) * y == (y / length) * x == (x * y) / length
  {
  }

  /**
   * The dividing line is the perpendicular bisector of the move: its midpoint
   * is the move's midpoint and both its ends lie on the bisector (side 0).
   */
  lemma BisectorLine(start: LatLng, end: LatLng, towardEnd: bool, m: Maths)
    requires PerpLength(start, end, m) > 0.0
    ensures var s := Bisector(start, end, towardEnd, m);
      |s| == 3 && s[0].Polyline? && |s[0].points| == 2 && s[0].style == DividingLine &&
      Midpoint(s[0].points[0], s[0].points[1]) == Midpoint(start, end) &&
      Side(start, end, s[0].points[0]) == 0.0 && Side(start, end, s[0].points[1]) == 0.0 &&
      s[2] == Polyline([start, end], Movement)
  {
    var dy, dx := end.lat - start.lat, end.lng - start.lng;
    var length := PerpLength(start, end, m);
    var normDx, normDy := -dy / length, dx / length;
    var mid := Midpoint(start, end);
    var a := LatLng(mid.lat - normDy * LineLength, mid.lng - normDx * LineLength);
    var b := LatLng(mid.lat + normDy * LineLength, mid.lng + normDx * LineLength);
    assert Bisector(start, end, towardEnd, m)[0] == Polyline([a, b], DividingLine);
    ScaleOverLength(dx, dy, length);
    ScaleOverLength(-dy, dx, length);
    assert Side(start, end, a) == -(normDy * dy + normDx * dx) * LineLength;
    assert Side(start, end, b) == (normDy * dy + normDx * dx) * LineLength;
  }

  /**
   * The half-plane: its near edge is the dividing line, and its far edge is
   * that line shifted by k * (dlat, dlng) with k = 50000 / length, toward
   * `end` when `towardEnd` holds and toward `start` otherwise.
   */
  lemma BisectorHalfPlane(start: LatLng, end: LatLng, towardEnd: bool, m: Maths)
    requires PerpLength(start, end, m) > 0.0
    ensures var s := Bisector(start, end, towardEnd, m);
      var dy, dx := end.lat - start.lat, end.lng - start.lng;
      var k := LargeDistance / PerpLength(start, end, m);
      k > 0.0 && |s| == 3 && s[0].Polyline? && |s[0].points| == 2 &&
      s[1].Polygon? && |s[1].rings| == 1 && s[1].style == Shaded &&
      var a, b, h := s[0].points[0], s[0].points[1], s[1].rings[0];
      |h| == 4 &&
      (towardEnd ==>
         h[2] == b && h[3] == a &&
         h[0] == LatLng(a.lat + k * dy, a.lng + k * dx) && h[1] == LatLng(b.lat + k * dy, b.lng + k * dx)) &&
      (!towardEnd ==>
         h[0] == a && h[1] == b &&
         h[3] == LatLng(a.lat - k * dy, a.lng - k * dx) && h[2] == LatLng(b.lat - k * dy, b.lng - k * dx))
  {
    var dy, dx := end.lat - start.lat, end.lng - start.lng;
    var length := PerpLength(start, end, m);
    var normDx, normDy := -dy / length, dx / length;
    var mid := Midpoint(start, end);
    var a := LatLng(mid.lat - normDy * LineLength, mid.lng - normDx * LineLength);
    var b := LatLng(mid.lat + normDy * LineLength, mid.lng + normDx * LineLength);
    var s := Bisector(start, end, towardEnd, m);
    assert s[0] == Polyline([a, b], DividingLine);
    assert s[1] == Polygon([HalfPlane(a, b, normDx, normDy, towardEnd)], Shaded);
    var k := LargeDistance / length;
    ScaleOverLength(-dy, LargeDistance, length);
    ScaleOverLength(dx, LargeDistance, length);
    assert normDx * LargeDistance == -(k * dy);
    assert normDy * LargeDistance == k * dx;
  }

  /** Shifting a point by k times the movement changes its side by k times the squared move. */
  lemma ShiftedSide(start: LatLng, end: LatLng, p: LatLng, k: real)
    ensures var dy, dx := end.lat - start.lat, end.lng - start.lng;
      Side(start, end, LatLng(p.lat + k * dy, p.lng + k * dx)) == Side(start, end, p) + k * SquaredMove(start, end)
  {
  }

  /**
   * The far vertices of the half-plane lie on the side of `end` when
   * `towardEnd` holds, and on the side of `start` otherwise: their side is a
   * positive multiple (2k) of that point's side. The near vertices lie on the
   * bisector.
   */
  lemma BisectorShadedSide(start: LatLng, end: LatLng, towardEnd: bool, m: Maths)
    requires PerpLength(start, end, m) > 0.0
    ensures var s := Bisector(start, end, towardEnd, m);
      var k := LargeDistance / PerpLength(start, end, m);
      k > 0.0 && |s| == 3 && s[1].Polygon? && |s[1].rings| == 1 && |s[1].rings[0]| == 4 &&
      var h := s[1].rings[0];
      (towardEnd ==>
         Side(start, end, h[0]) == 2.0 * k * Side(start, end, end) &&
         Side(start, end, h[1]) == 2.0 * k * Side(start, end, end) &&
         Side(start, end, h[2]) == 0.0 && Side(start, end, h[3]) == 0.0) &&
      (!towardEnd ==>
         Side(start, end, h[3]) == 2.0 * k * Side(start, end, start) &&
         Side(start, end, h[2]) == 2.0 * k * Side(start, end, start) &&
         Side(start, end, h[0]) == 0.0 && Side(start, end, h[1]) == 0.0)
  {
    BisectorLine(start, end, towardEnd, m);
    BisectorHalfPlane(start, end, towardEnd, m);
    EndpointSides(start, end);
    var s := Bisector(start, end, towardEnd, m);
    var k := LargeDistance / PerpLength(start, end, m);
    var a, b := s[0].points[0], s[0].points[1];
    if towardEnd {
      ShiftedSide(start, end, a, k);
      ShiftedSide(start, end, b, k);
    } else {
      ShiftedSide(start, end, a, -k);
      ShiftedSide(start, end, b, -k);
    }
  }
}
