/**
 * `formatTime`, shared word for word by the hider app and the game app:
 * a number of seconds shown as hours, minutes and seconds, each at least
 * two digits, joined by colons.
 */
module Clock {
  import opened Wrappers
  import opened Text

  /** A clock field: `n.toString().padStart(2, '0')`. It reads back as `n`. */
  function Pad2(n: nat): (r: string)
    ensures AllDigits(r) && DigitsValue(r) == n
    ensures n < 100 ==> |r| == 2
    ensures |r| >= 2
  {
    var s := NatToString(n);
    var r := PadStart(s, 2, '0');
    NatToStringRoundTrip(n);
    ZeroPaddingValue(s, |r| - |s|);
    r
  }

  /** The three clock fields joined by colons. */
  function Join(h: string, m: string, s: string): (r: string)
    ensures |r| == |h| + |m| + |s| + 2
  {
    h + ":" + m + ":" + s
  }

  /** The fields recombine to the given seconds; minutes and seconds stay below 60. */
  lemma FieldsDecompose(seconds: nat)
    ensures (seconds / 3600) * 3600 + ((seconds % 3600) / 60) * 60 + seconds % 60 == seconds
    ensures (seconds % 3600) / 60 < 60 && seconds % 60 < 60
  {
    var r := seconds % 3600;
    assert seconds == (seconds / 3600) * 3600 + r;
    assert r == (r / 60) * 60 + r % 60;
    assert r % 60 == seconds % 60 by {
      assert seconds == ((seconds / 3600) * 60) * 60 + r;
    }
  }

  function FormatTime(seconds: nat): (r: string)
    ensures |r| >= 8 && r[|r| - 3] == ':' && r[|r| - 6] == ':'
    ensures seconds < 360000 ==> |r| == 8
  {
    FieldsDecompose(seconds);
    Join(Pad2(seconds / 3600), Pad2((seconds % 3600) / 60), Pad2(seconds % 60))
  }

  /** A clock field read back: a string of digits denotes its value. */
  function ReadField(f: string): Option<nat> {
    if AllDigits(f) then Some(DigitsValue(f)) else None
  }

  /** The hours, minutes and seconds text of a clock string, split at its last two colons. */
  function Split(r: string): Option<(string, string, string)> {
    if |r| < 8 || r[|r| - 6] != ':' || r[|r| - 3] != ':' then None
    else Some((r[..|r| - 6], r[|r| - 5..|r| - 3], r[|r| - 2..]))
  }

  /** Reads a clock string back into seconds. */
  function ReadTime(r: string): Option<nat> {
    match Split(r)
    case None => None
    case Some((h, m, s)) =>
      match (ReadField(h), ReadField(m), ReadField(s))
      case (Some(hv), Some(mv), Some(sv)) => Some(hv * 3600 + mv * 60 + sv)
      case _ => None
  }

  /** Three fields joined by colons split back into the same three fields. */
  lemma SplitJoin(h: string, m: string, s: string)
    requires |h| >= 2 && |m| == 2 && |s| == 2
    ensures Split(Join(h, m, s)) == Some((h, m, s))
  {
    var r := Join(h, m, s);
    assert r == h + ([':'] + m) + ([':'] + s);
    assert r[..|r| - 6] == h && r[|r| - 5..|r| - 3] == m && r[|r| - 2..] == s;
  }

  /** Three digit fields joined by colons read back as the seconds they denote. */
  lemma ReadJoin(h: string, m: string, s: string, hv: nat, mv: nat, sv: nat)
    requires AllDigits(h) && AllDigits(m) && AllDigits(s)
    requires DigitsValue(h) == hv && DigitsValue(m) == mv && DigitsValue(s) == sv
    requires |h| >= 2 && |m| == 2 && |s| == 2
    ensures ReadTime(Join(h, m, s)) == Some(hv * 3600 + mv * 60 + sv)
  {
    SplitJoin(h, m, s);
    assert ReadField(h) == Some(hv);
    assert ReadField(m) == Some(mv);
    assert ReadField(s) == Some(sv);
  }

  /** The padded fields of any hours, minutes and seconds read back as the seconds they make up. */
  lemma ReadPadded(hours: nat, minutes: nat, secs: nat)
    requires minutes < 60 && secs < 60
    ensures ReadTime(Join(Pad2(hours), Pad2(minutes), Pad2(secs))) == Some(hours * 3600 + minutes * 60 + secs)
  {
    ReadJoin(Pad2(hours), Pad2(minutes), Pad2(secs), hours, minutes, secs);
  }

  /** Every clock string reads back as the seconds it was made from. */
  lemma FormatTimeRoundTrip(seconds: nat)
    ensures ReadTime(FormatTime(seconds)) == Some(seconds)
  {
    FieldsDecompose(seconds);
    ReadPadded(seconds / 3600, (seconds % 3600) / 60, seconds % 60);
  }

  /** The padded fields split back out of the joined string and read as the numbers they were made from. */
  lemma ReadFieldsPadded(hours: nat, minutes: nat, secs: nat)
    requires minutes < 60 && secs < 60
    ensures var sp := Split(Join(Pad2(hours), Pad2(minutes), Pad2(secs)));
      sp.Some? && ReadField(sp.value.0) == Some(hours) &&
      ReadField(sp.value.1) == Some(minutes) && ReadField(sp.value.2) == Some(secs)
  {
    SplitJoin(Pad2(hours), Pad2(minutes), Pad2(secs));
  }

  /**
   * The fields of a clock string: the hours read back as the whole hours,
   * and the minutes and seconds fields read back as numbers below 60.
   */
  lemma FormatTimeFields(seconds: nat)
    ensures var sp := Split(FormatTime(seconds));
      sp.Some? && ReadField(sp.value.0) == Some(seconds / 3600) &&
      ReadField(sp.value.1).Some? && ReadField(sp.value.1).value < 60 &&
      ReadField(sp.value.2).Some? && ReadField(sp.value.2).value < 60
  {
    var hours, minutes, secs := seconds / 3600, (seconds % 3600) / 60, seconds % 60;
    FieldsDecompose(seconds);
    ReadFieldsPadded(hours, minutes, secs);
  }

  /** Three two-digit fields joined by colons make "hh:mm:ss". */
  lemma JoinShape(h: string, m: string, s: string)
    requires |h| == 2 && |m| == 2 && |s| == 2
    ensures var r := Join(h, m, s);
      |r| == 8 && r[2] == ':' && r[5] == ':' && r[..2] == h && r[3..5] == m && r[6..] == s
  {
    var r := Join(h, m, s);
    assert r == h + ([':'] + m) + ([':'] + s);
  }

  /** Below 100 hours the clock is exactly "hh:mm:ss". */
  lemma FormatTimeShape(seconds: nat)
    requires seconds < 360000
    ensures var r := FormatTime(seconds);
      |r| == 8 && r[2] == ':' && r[5] == ':' &&
      AllDigits(r[..2]) && AllDigits(r[3..5]) && AllDigits(r[6..])
  {
    var hours, minutes, secs := seconds / 3600, (seconds % 3600) / 60, seconds % 60;
    assert hours < 100;
    FieldsDecompose(seconds);
    JoinShape(Pad2(hours), Pad2(minutes), Pad2(secs));
  }
}
