/**
 * `addShadedArea`: the map layers one answered question adds, as a list of
 * shape records. Radar questions shade a circle or a donut, matching
 * questions a half-plane strip and its dividing line, thermometer questions
 * the half-plane beyond the perpendicular bisector of the seekers' move.
 */
module Shading {
  import opened Wrappers
  import opened Text
  import opened Numbers
  import opened Distance
  import opened Shapes

  datatype QuestionType = Matching | Radar | Thermometer | Photo

  /**
   * A question as the seeker app records it. `location` is the clicked
   * point (the moved-to point of a thermometer), `startLocation` the
   * thermometer's starting point; time stamps are not modelled.
   */
  datatype Question = Question(
    qtype: QuestionType,
    details: string,
    location: Option<LatLng>,
    startLocation: Option<LatLng>,
    answered: bool,
    answer: string)

  /** The location is one where a degree of longitude has positive width. */
  predicate Placeable(q: Question, m: Maths) {
    q.location.Some? ==> m.cosDeg(q.location.value.lat) > 0.0
  }

  /**
   * Radar shading around `c` for the parsed radius: "No" shades the disc,
   * "Yes" the donut between the radius and 50 km plus the boundary circle.
   * A radius that does not parse (NaN) gives no shapes.
   */
  function RadarShades(c: LatLng, radius: Number, answer: string, m: Maths): (s: seq<Shape>)
    requires m.cosDeg(c.lat) != 0.0
    ensures s == [] <==> radius.NaN? || (answer != "Yes" && answer != "No")
    ensures |s| <= 2
    ensures s != [] ==> s[|s| - 1] == Circle(c, radius.value, if answer == "No" then Shaded else Boundary)
  {
    if radius.NaN? then []
    else if answer == "No" then [Circle(c, radius.value, Shaded)]
    else if answer == "Yes" then
      [Polygon([Ring(c, OuterRadius, m), Reversed(Ring(c, radius.value, m))], Shaded),
       Circle(c, radius.value, Boundary)]
    else []
  }

  /**
   * The strip a matching answer shades. The east/west test runs after the
   * north/south one and wins when both apply.
   */
  function AnsweredDirection(northSouth: bool, eastWest: bool, answer: string): (d: Option<Direction>)
    ensures d == Some(North) <==> northSouth && answer == "North"
    ensures d == Some(South) <==> northSouth && answer == "South"
    ensures d == Some(East) <==> eastWest && answer == "East"
    ensures d == Some(West) <==> eastWest && answer == "West"
  {
    if eastWest && answer == "East" then Some(East)
    else if eastWest && answer == "West" then Some(West)
    else if northSouth && answer == "North" then Some(North)
    else if northSouth && answer == "South" then Some(South)
    else None
  }

  /** Matching shading: the strip for the answered direction, then the dividing line. */
  function MatchingShades(c: LatLng, details: string, answer: string, m: Maths): (s: seq<Shape>)
    requires m.cosDeg(c.lat) > 0.0
    ensures s == [] <==> !Contains(details, "north or south") && !Contains(details, "east or west")
    ensures |s| <= 2
    ensures s != [] ==> s[|s| - 1] == Polyline(MatchingLine(c, Contains(details, "north or south")), DividingLine)
  {
    var northSouth := Contains(details, "north or south");
    var eastWest := Contains(details, "east or west");
    if !northSouth && !eastWest then []
    else
      var strip := match AnsweredDirection(northSouth, eastWest, answer)
        case Some(d) => [Polygon([HalfPlaneBounds(c, d, m)], Shaded)]
        case None => [];
      strip + [Polyline(MatchingLine(c, northSouth), DividingLine)]
  }

  /**
   * Thermometer shading as the app computes it: the answer "Closer" pushes
   * the half-plane toward the moved-to point, any other answer toward the
   * start. No movement gives no shapes; the dividing line comes first and
   * the movement line last.
   */
  function ThermometerShadesAsWritten(start: LatLng, end: LatLng, answer: string, m: Maths): (s: seq<Shape>)
    ensures s == [] <==> PerpLength(start, end, m) == 0.0
    ensures s != [] ==> |s| == 3 && s[0].Polyline? && s[0].style == DividingLine && s[2] == Polyline([start, end], Movement)
  {
    Bisector(start, end, answer == "Closer", m)
  }

  /**
   * Thermometer shading as the answer means it: "Closer" rules out the half
   * nearer the starting point, any other answer the half nearer the
   * moved-to point. It draws the same lines as the app and differs from it
   * only in the side of the half-plane.
   */
  function ThermometerShades(start: LatLng, end: LatLng, answer: string, m: Maths): (s: seq<Shape>)
    ensures s == [] <==> PerpLength(start, end, m) == 0.0
    ensures s != [] ==> |s| == 3 && s[0].Polyline? && s[0].style == DividingLine && s[2] == Polyline([start, end], Movement)
  {
    Bisector(start, end, answer != "Closer", m)
  }

  /**
   * The source builds a Leaflet layer from NaN here and Leaflet throws
   * before anything is drawn: a radar "Yes" or "No" whose distance does not
   * parse, or a thermometer with no movement (0 / 0 coordinates).
   */
  predicate ShadingThrows(q: Question, m: Maths) {
    q.location.Some? && q.answered &&
    match q.qtype
    case Radar => DistanceToMeters(q.details).NaN? && (q.answer == "Yes" || q.answer == "No")
    case Thermometer => q.startLocation.Some? && PerpLength(q.startLocation.value, q.location.value, m) == 0.0
    case _ => false
  }

  /** The shapes one question adds to the map; none when the source throws. */
  function ShadesFor(q: Question, m: Maths): (s: seq<Shape>)
    requires Placeable(q, m)
    ensures q.location.None? || !q.answered || q.qtype == Photo || ShadingThrows(q, m) ==> s == []
    ensures |s| <= 3
  {
    if q.location.None? || !q.answered then []
    else
      var c := q.location.value;
      match q.qtype
      case Radar => RadarShades(c, DistanceToMeters(q.details), q.answer, m)
      case Matching => MatchingShades(c, q.details, q.answer, m)
      case Thermometer =>
        if q.startLocation.Some? then ThermometerShadesAsWritten(q.startLocation.value, c, q.answer, m) else []
      case Photo => []
  }

  // ---------------------------------------------------------------------
  // Properties

  /** A question with no location, or not yet answered, shades nothing. */
  lemma NothingWithoutLocationOrAnswer(q: Question, m: Maths)
    requires Placeable(q, m)
    requires q.location.None? || !q.answered
    ensures ShadesFor(q, m) == []
  {
  }

  /** Photo questions never shade. */
  lemma PhotoShadesNothing(q: Question, m: Maths)
    requires Placeable(q, m) && q.qtype == Photo
    ensures ShadesFor(q, m) == []
  {
  }

  /** Radar "No": exactly one shaded circle at the question location, of the parsed radius. */
  lemma RadarNo(q: Question, m: Maths, d: real)
    requires Placeable(q, m) && q.location.Some? && q.answered
    requires q.qtype == Radar && q.answer == "No" && DistanceToMeters(q.details) == Num(d)
    ensures ShadesFor(q, m) == [Circle(q.location.value, d, Shaded)]
  {
  }

  /**
   * Radar "Yes": one donut polygon, then one boundary circle of the parsed
   * radius. The outer ring has 65 vertices at 50 km, vertex i at angle
   * i * 360 / 64; the inner ring has 65 vertices at the radius, vertex j at
   * angle index 64 - j, so it is wound the other way.
   */
  lemma RadarYes(q: Question, m: Maths, d: real)
    requires Placeable(q, m) && q.location.Some? && q.answered
    requires q.qtype == Radar && q.answer == "Yes" && DistanceToMeters(q.details) == Num(d)
    ensures var s, c := ShadesFor(q, m), q.location.value;
      |s| == 2 && s[0].Polygon? && s[0].style == Shaded && |s[0].rings| == 2 &&
      s[1] == Circle(c, d, Boundary) &&
      var outer, inner := s[0].rings[0], s[0].rings[1];
      |outer| == NumPoints + 1 && |inner| == NumPoints + 1 &&
      (forall i :: 0 <= i <= NumPoints ==> outer[i] == RingPoint(c, i, OuterRadius, m)) &&
      (forall j :: 0 <= j <= NumPoints ==> inner[j] == RingPoint(c, NumPoints - j, d, m))
  {
    var c := q.location.value;
    assert ShadesFor(q, m) == RadarShades(c, Num(d), "Yes", m);
    var inner := Reversed(Ring(c, d, m));
    forall j | 0 <= j <= NumPoints ensures inner[j] == RingPoint(c, NumPoints - j, d, m) {
      assert inner[j] == Ring(c, d, m)[NumPoints - j];
    }
  }

  /** Radar answers other than "Yes" and "No" shade nothing. */
  lemma RadarOtherAnswer(q: Question, m: Maths)
    requires Placeable(q, m) && q.qtype == Radar && q.answer != "Yes" && q.answer != "No"
    ensures ShadesFor(q, m) == []
  {
  }

  /** A matching question about neither north/south nor east/west shades nothing. */
  lemma MatchingOtherQuestions(q: Question, m: Maths)
    requires Placeable(q, m) && q.qtype == Matching
    requires !Contains(q.details, "north or south") && !Contains(q.details, "east or west")
    ensures ShadesFor(q, m) == []
  {
  }

  /**
   * A directional question answered in its direction shades one strip,
   * which stays on the far side of the question location from the answer,
   * and then draws the dividing line.
   */
  lemma MatchingAnswerShadesOppositeSide(q: Question, m: Maths)
    requires Placeable(q, m) && q.location.Some? && q.answered && q.qtype == Matching
    requires var ns, ew := Contains(q.details, "north or south"), Contains(q.details, "east or west");
      (ns && (q.answer == "North" || q.answer == "South")) || (ew && (q.answer == "East" || q.answer == "West"))
    ensures var s, c := ShadesFor(q, m), q.location.value;
      |s| == 2 && s[0].Polygon? && s[0].style == Shaded && |s[0].rings| == 1 && |s[0].rings[0]| == 4 &&
      s[1] == Polyline(MatchingLine(c, Contains(q.details, "north or south")), DividingLine) &&
      var b := s[0].rings[0];
      (q.answer == "North" ==> forall v :: v in b ==> v.lat <= c.lat) &&
      (q.answer == "South" ==> forall v :: v in b ==> v.lat >= c.lat) &&
      (q.answer == "East" ==> forall v :: v in b ==> v.lng <= c.lng) &&
      (q.answer == "West" ==> forall v :: v in b ==> v.lng >= c.lng)
  {
    var c := q.location.value;
    var ns, ew := Contains(q.details, "north or south"), Contains(q.details, "east or west");
    var d := AnsweredDirection(ns, ew, q.answer);
    assert d.Some?;
  }

  /** A directional question whose answer names no applicable direction adds only the dividing line. */
  lemma MatchingUnmatchedAnswer(q: Question, m: Maths)
    requires Placeable(q, m) && q.location.Some? && q.answered && q.qtype == Matching
    requires var ns, ew := Contains(q.details, "north or south"), Contains(q.details, "east or west");
      (ns || ew) &&
      !(ns && (q.answer == "North" || q.answer == "South")) && !(ew && (q.answer == "East" || q.answer == "West"))
    ensures ShadesFor(q, m) ==
      [Polyline(MatchingLine(q.location.value, Contains(q.details, "north or south")), DividingLine)]
  {
    var ns, ew := Contains(q.details, "north or south"), Contains(q.details, "east or west");
    assert AnsweredDirection(ns, ew, q.answer) == None;
  }

  /** A thermometer question without a starting point shades nothing. */
  lemma ThermometerNeedsStart(q: Question, m: Maths)
    requires Placeable(q, m) && q.qtype == Thermometer && q.startLocation.None?
    ensures ShadesFor(q, m) == []
  {
  }

  /** Planar squared distance between two points, in squared degrees. */
  function Dist2(p: LatLng, q: LatLng): real {
    (p.lat - q.lat) * (p.lat - q.lat) + (p.lng - q.lng) * (p.lng - q.lng)
  }

  /**
   * The side of the bisector measures how much nearer a point is to the
   * moved-to point than to the start: positive exactly for points nearer
   * `end`, negative for points nearer `start`.
   */
  lemma SideMeasuresNearness(start: LatLng, end: LatLng, p: LatLng)
    ensures Dist2(p, start) - Dist2(p, end) == 2.0 * Side(start, end, p)
    ensures Dist2(p, end) < Dist2(p, start) <==> Side(start, end, p) > 0.0
    ensures Dist2(p, start) < Dist2(p, end) <==> Side(start, end, p) < 0.0
  {
  }

  /**
   * The far vertices of the half-plane of `Bisector` are nearer `end` when
   * it reaches toward `end`, nearer `start` otherwise, and the near
   * vertices are as near one as the other.
   */
  lemma BisectorFarSide(start: LatLng, end: LatLng, towardEnd: bool, m: Maths)
    requires PerpLength(start, end, m) > 0.0 && SquaredMove(start, end) > 0.0
    ensures var s := Bisector(start, end, towardEnd, m);
      |s| == 3 && s[1].Polygon? && |s[1].rings| == 1 && |s[1].rings[0]| == 4 &&
      var h := s[1].rings[0];
      var far, near := if towardEnd then [h[0], h[1]] else [h[2], h[3]], if towardEnd then [h[2], h[3]] else [h[0], h[1]];
      (forall v :: v in far ==> (towardEnd <==> Dist2(v, end) < Dist2(v, start))) &&
      (forall v :: v in far ==> (!towardEnd <==> Dist2(v, start) < Dist2(v, end))) &&
      (forall v :: v in near ==> Dist2(v, start) == Dist2(v, end))
  {
    BisectorShadedSide(start, end, towardEnd, m);
    EndpointSides(start, end);
    var s := Bisector(start, end, towardEnd, m);
    var h := s[1].rings[0];
    var k := LargeDistance / PerpLength(start, end, m);
    assert 2.0 * k * Side(start, end, end) == k * SquaredMove(start, end) > 0.0;
    forall i | 0 <= i < 4 ensures Dist2(h[i], start) - Dist2(h[i], end) == 2.0 * Side(start, end, h[i]) {
      SideMeasuresNearness(start, end, h[i]);
    }
  }

  /**
   * As written, the answer "Closer" (the hider is nearer the moved-to point)
   * shades a region whose far corners are nearer the moved-to point: the
   * side the hider is on.
   */
  lemma ThermometerAsWrittenShadesHiderSide(start: LatLng, end: LatLng, m: Maths)
    requires PerpLength(start, end, m) > 0.0 && SquaredMove(start, end) > 0.0
    ensures var s := ThermometerShadesAsWritten(start, end, "Closer", m);
      |s| == 3 && s[1].Polygon? && |s[1].rings| == 1 && |s[1].rings[0]| == 4 &&
      var h := s[1].rings[0];
      Dist2(h[0], end) < Dist2(h[0], start) && Dist2(h[1], end) < Dist2(h[1], start)
  {
    BisectorFarSide(start, end, true, m);
    var h := ThermometerShadesAsWritten(start, end, "Closer", m)[1].rings[0];
    assert h[0] in [h[0], h[1]] && h[1] in [h[0], h[1]];
  }

  /**
   * The concrete move from (0, 0) to (0, 0.01) answered "Closer": as written,
   * the first far corner of the shaded region is nearer the moved-to point
   * than the start.
   */
  lemma ThermometerCounterexample(m: Maths)
    requires PerpLength(LatLng(0.0, 0.0), LatLng(0.0, 0.01), m) > 0.0
    ensures var s := ThermometerShadesAsWritten(LatLng(0.0, 0.0), LatLng(0.0, 0.01), "Closer", m);
      |s| == 3 && s[1].Polygon? && |s[1].rings| == 1 && |s[1].rings[0]| == 4 &&
      Dist2(s[1].rings[0][0], LatLng(0.0, 0.01)) < Dist2(s[1].rings[0][0], LatLng(0.0, 0.0))
  {
    assert SquaredMove(LatLng(0.0, 0.0), LatLng(0.0, 0.01)) == 0.0001;
    ThermometerAsWrittenShadesHiderSide(LatLng(0.0, 0.0), LatLng(0.0, 0.01), m);
  }

  /**
   * The app's shading for the thermometer answer, the as-written half-plane
   * and the dividing and movement lines around it.
   */
  lemma ThermometerInApp(q: Question, m: Maths)
    requires Placeable(q, m) && q.location.Some? && q.answered && q.qtype == Thermometer && q.startLocation.Some?
    ensures ShadesFor(q, m) == ThermometerShadesAsWritten(q.startLocation.value, q.location.value, q.answer, m)
  {
  }

  /**
   * The corrected shading is the app's shading for the other answer:
   * "Closer" draws what the app draws for "Farther", and the reverse.
   */
  lemma CorrectionSwapsAnswers(start: LatLng, end: LatLng, answer: string, m: Maths)
    ensures answer == "Closer" ==> ThermometerShades(start, end, answer, m) == ThermometerShadesAsWritten(start, end, "Farther", m)
    ensures answer != "Closer" ==> ThermometerShades(start, end, answer, m) == ThermometerShadesAsWritten(start, end, "Closer", m)
  {
  }

  /**
   * Corrected thermometer shading: "Closer" shades the half nearer the start
   * (where the hider is not), any other answer the half nearer the
   * moved-to point; the shaded half's near edge is the bisector, and the
   * bisector line and movement line are drawn around it.
   */
  lemma ThermometerShadesRuledOutSide(start: LatLng, end: LatLng, answer: string, m: Maths)
    requires PerpLength(start, end, m) > 0.0
    requires SquaredMove(start, end) > 0.0
    ensures var s := ThermometerShades(start, end, answer, m);
      |s| == 3 && s[0].Polyline? && s[0].style == DividingLine && s[2] == Polyline([start, end], Movement) &&
      s[1].Polygon? && s[1].style == Shaded && |s[1].rings| == 1 && |s[1].rings[0]| == 4 &&
      var h := s[1].rings[0];
      (answer == "Closer" ==>
         Dist2(h[2], start) < Dist2(h[2], end) && Dist2(h[3], start) < Dist2(h[3], end) &&
         Dist2(h[0], start) == Dist2(h[0], end) && Dist2(h[1], start) == Dist2(h[1], end)) &&
      (answer != "Closer" ==>
         Dist2(h[0], end) < Dist2(h[0], start) && Dist2(h[1], end) < Dist2(h[1], start) &&
         Dist2(h[2], start) == Dist2(h[2], end) && Dist2(h[3], start) == Dist2(h[3], end))
  {
    var towardEnd := answer != "Closer";
    BisectorFarSide(start, end, towardEnd, m);
    BisectorLine(start, end, towardEnd, m);
    BisectorHalfPlane(start, end, towardEnd, m);
    var h := Bisector(start, end, towardEnd, m)[1].rings[0];
    assert h[0] in [h[0], h[1]] && h[1] in [h[0], h[1]];
    assert h[2] in [h[2], h[3]] && h[3] in [h[2], h[3]];
  }
}
