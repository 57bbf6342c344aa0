/**
 * The radar/thermometer distance tokens of the seeker app ("5 mi", "½ mi",
 * "500m", "3 km") and their conversion to meters.
 */
module Distance {
  import opened Text
  import opened Numbers

  const MetersPerMile: real := 1609.34
  const MetersPerKilometer: real := 1000.0
  /** The glyphs written on the fractional radar cards. */
  const Half: char := '\U{00BD}'
  const Quarter: char := '\U{00BC}'

  /**
   * The fraction glyphs become decimals: only the first "½" and the first "¼"
   * are replaced, and a token without either glyph is left as it is.
   */
  function ExpandGlyphs(s: string): (r: string)
    ensures Half !in s && Quarter !in s ==> r == s
    ensures Half in s && Quarter !in s ==>
      var i := FirstIndex(s, Half); r == s[..i] + "0.5" + s[i + 1..]
    ensures Half !in s && Quarter in s ==>
      var i := FirstIndex(s, Quarter); r == s[..i] + "0.25" + s[i + 1..]
  {
    ReplaceFirst(ReplaceFirst(s, Half, "0.5"), Quarter, "0.25")
  }

  /**
   * `distanceToMeters`: miles are tested first, then kilometres, then meters;
   * a token with no unit at all counts as one mile.
   */
  function DistanceToMeters(s: string): (r: Number)
    ensures !Contains(s, "m") ==> r == Num(MetersPerMile)
    ensures r.NaN? <==> Contains(s, "m") && ParseFloat(if Contains(s, "mi") then ExpandGlyphs(s) else s).NaN?
  {
    if Contains(s, "mi") then
      MarkerContainsM(s, "mi");
      Times(ParseFloat(ExpandGlyphs(s)), MetersPerMile)
    else if Contains(s, "km") then
      MarkerContainsM(s, "km");
      Times(ParseFloat(s), MetersPerKilometer)
    else if Contains(s, "m") then ParseFloat(s)
    else Num(MetersPerMile)
  }

  /** Both characters of a two-character needle that occurs are in the string. */
  lemma {:induction false} OccursPair(s: string, a: char, b: char)
    requires Occurs(s, [a, b])
    ensures a in s && b in s
  {
    var i: nat :| OccursAt(s, [a, b], i);
    assert s[i] == s[i..i + 2][0] && s[i + 1] == s[i..i + 2][1];
  }

  /**
   * Both unit markers contain an "m", so a token with "mi" or "km" would also
   * pass the plain-meters test: the order of the tests decides the unit.
   */
  lemma UnitMarkersContainM(s: string)
    requires Occurs(s, "mi") || Occurs(s, "km")
    ensures 'm' in s
  {
    if Occurs(s, "mi") { OccursPair(s, 'm', 'i'); } else { OccursPair(s, 'k', 'm'); }
  }

  /** A token that contains a unit marker contains an "m". */
  lemma MarkerContainsM(s: string, marker: string)
    requires marker == "mi" || marker == "km"
    requires Contains(s, marker)
    ensures Contains(s, "m")
  {
    ContainsMeansOccurs(s, marker);
    UnitMarkersContainM(s);
    OccursChar(s, 'm');
    ContainsMeansOccurs(s, "m");
  }

  /** Any token with "mi" in it is miles, whatever else it contains, after the glyph expansion. */
  lemma MilesTokens(s: string)
    requires Occurs(s, "mi")
    ensures DistanceToMeters(s) == Times(ParseFloat(ExpandGlyphs(s)), MetersPerMile)
  {
    ContainsMeansOccurs(s, "mi");
  }

  /** A token with "km" but no "mi" is kilometres; the glyphs are not expanded. */
  lemma KilometreTokens(s: string)
    requires !Occurs(s, "mi") && Occurs(s, "km")
    ensures DistanceToMeters(s) == Times(ParseFloat(s), MetersPerKilometer)
  {
    ContainsMeansOccurs(s, "mi");
    ContainsMeansOccurs(s, "km");
  }

  /** A token with an "m" but neither marker is read as meters, unscaled. */
  lemma MeterTokens(s: string)
    requires 'm' in s && !Occurs(s, "mi") && !Occurs(s, "km")
    ensures DistanceToMeters(s) == ParseFloat(s)
  {
    ContainsMeansOccurs(s, "mi");
    ContainsMeansOccurs(s, "km");
    ContainsMeansOccurs(s, "m");
    OccursChar(s, 'm');
  }

  /** A token without any "m" falls back to exactly one mile, whatever number it holds. */
  lemma UnitlessTokens(s: string)
    requires 'm' !in s
    ensures DistanceToMeters(s) == Num(MetersPerMile)
  {
    OccursChar(s, 'm');
    ContainsMeansOccurs(s, "m");
    ContainsMeansOccurs(s, "mi");
    ContainsMeansOccurs(s, "km");
    if Occurs(s, "mi") || Occurs(s, "km") {
      UnitMarkersContainM(s);
    }
  }

  /** A token ending in " mi" carries the miles marker. */
  lemma MilesMarkerAtEnd(p: string)
    ensures Occurs(p + " mi", "mi")
  {
    assert (p + " mi")[|p| + 1..|p| + 3] == "mi";
    assert OccursAt(p + " mi", "mi", |p| + 1);
  }

  /** The replacement of the first glyph at the start of a token. */
  lemma ReplaceAtStart(c: char, r: string, rest: string)
    ensures ReplaceFirst([c] + rest, c, r) == r + rest
  {
    assert ([c] + rest)[1..] == rest;
  }

  /** Text made of digits and the unit letters carries neither fraction glyph. */
  lemma NoGlyphs(d: string, unit: string)
    requires AllDigits(d)
    requires Half !in unit && Quarter !in unit
    ensures ExpandGlyphs(d + unit) == d + unit
  {
    var s := d + unit;
    assert forall i :: 0 <= i < |s| ==> s[i] != Half && s[i] != Quarter by {
      forall i | 0 <= i < |s| ensures s[i] != Half && s[i] != Quarter {
        if i < |d| { assert s[i] == d[i]; } else { assert s[i] == unit[i - |d|]; }
      }
    }
  }

  /** The radius chosen in the manual-shading dialog, in meters. */
  function MilesToMeters(miles: real): (m: real)
    ensures miles >= 0.0 ==> m >= miles
  {
    miles * MetersPerMile
  }

  /** A miles token whose expanded text reads as `v` is `v` miles. */
  lemma MilesReading(s: string, v: real)
    requires Occurs(s, "mi")
    requires ParseFloat(ExpandGlyphs(s)) == Num(v)
    ensures DistanceToMeters(s) == Num(MilesToMeters(v))
  {
    MilesTokens(s);
    assert Times(Num(v), MetersPerMile) == Num(MilesToMeters(v));
  }

  /** "n mi" gives the same radius as the manual-shading dialog's n miles. */
  lemma WholeMilesAgreeWithManualShade(n: nat)
    ensures DistanceToMeters(NatToString(n) + " mi") == Num(MilesToMeters(n as real))
  {
    var d := NatToString(n);
    MilesMarkerAtEnd(d);
    NoGlyphs(d, " mi");
    ParseWholeNumber(n, " mi");
    MilesReading(d + " mi", n as real);
  }

  lemma KilometreThenMilesMarker(d: string)
    ensures Occurs(d + " km mi", "mi")
  {
    MilesMarkerAtEnd(d + " km");
    assert d + " km" + " mi" == d + " km mi";
  }

  /** A token with both markers is read as miles, even when "km" comes first. */
  lemma MilesWinOverKilometres(n: nat)
    ensures DistanceToMeters(NatToString(n) + " km mi") == Num(MilesToMeters(n as real))
  {
    var d := NatToString(n);
    KilometreThenMilesMarker(d);
    NoGlyphs(d, " km mi");
    ParseWholeNumber(n, " km mi");
    MilesReading(d + " km mi", n as real);
  }

  lemma HalfGlyphExpands()
    ensures ExpandGlyphs([Half] + " mi") == NatToString(0) + ("." + "5" + " mi")
  {
    ReplaceAtStart(Half, "0.5", " mi");
    assert Quarter !in "0.5 mi";
  }

  lemma QuarterGlyphExpands()
    ensures ExpandGlyphs([Quarter] + " mi") == NatToString(0) + ("." + "25" + " mi")
  {
    assert Half !in [Quarter] + " mi";
    ReplaceAtStart(Quarter, "0.25", " mi");
  }

  lemma GlyphValues()
    ensures DecimalValue(NatToString(0), "5") == 0.5
    ensures DecimalValue(NatToString(0), "25") == 0.25
  {
  }

  /** "½ mi" gives the dialog's ½ mile. */
  lemma HalfMileAgreesWithManualShade()
    ensures DistanceToMeters([Half] + " mi") == Num(MilesToMeters(0.5))
  {
    MilesMarkerAtEnd([Half]);
    HalfGlyphExpands();
    GlyphValues();
    ParseDecimal(0, "5", " mi");
    MilesReading([Half] + " mi", 0.5);
  }

  /** "¼ mi" gives the dialog's ¼ mile. */
  lemma QuarterMileAgreesWithManualShade()
    ensures DistanceToMeters([Quarter] + " mi") == Num(MilesToMeters(0.25))
  {
    MilesMarkerAtEnd([Quarter]);
    QuarterGlyphExpands();
    GlyphValues();
    ParseDecimal(0, "25", " mi");
    MilesReading([Quarter] + " mi", 0.25);
  }

  /** "nm" (a thermometer card) is n meters. */
  lemma MetersToken(n: nat)
    ensures DistanceToMeters(NatToString(n) + "m") == Num(n as real)
  {
    var d := NatToString(n);
    var s := d + "m";
    assert 'i' !in s && 'k' !in s && 'm' in s by {
      assert forall j :: 0 <= j < |d| ==> IsDigit(s[j]);
      assert s[|d|] == 'm';
    }
    if Occurs(s, "mi") { OccursPair(s, 'm', 'i'); }
    if Occurs(s, "km") { OccursPair(s, 'k', 'm'); }
    MeterTokens(s);
    ParseWholeNumber(n, "m");
  }

  lemma CardSpellings()
    ensures NatToString(5) + " mi" == "5 mi"
    ensures NatToString(3) + " mi" == "3 mi"
    ensures NatToString(1) + " mi" == "1 mi"
    ensures NatToString(100) + "m" == "100m"
    ensures NatToString(200) + "m" == "200m"
    ensures NatToString(500) + "m" == "500m"
  {
  }

  /** The meters read from the tokens printed on the seeker's radar cards. */
  lemma RadarCardTokens()
    ensures DistanceToMeters("5 mi") == Num(8046.7)
    ensures DistanceToMeters("3 mi") == Num(4828.02)
    ensures DistanceToMeters("1 mi") == Num(1609.34)
    ensures DistanceToMeters([Half] + " mi") == Num(804.67)
    ensures DistanceToMeters([Quarter] + " mi") == Num(402.335)
  {
    CardSpellings();
    WholeMilesAgreeWithManualShade(5);
    WholeMilesAgreeWithManualShade(3);
    WholeMilesAgreeWithManualShade(1);
    HalfMileAgreesWithManualShade();
    QuarterMileAgreesWithManualShade();
  }

  /** The meters read from the tokens printed on the seeker's thermometer cards. */
  lemma ThermometerCardTokens()
    ensures DistanceToMeters("100m") == Num(100.0)
    ensures DistanceToMeters("200m") == Num(200.0)
    ensures DistanceToMeters("500m") == Num(500.0)
  {
    CardSpellings();
    MetersToken(100);
    MetersToken(200);
    MetersToken(500);
  }
}
