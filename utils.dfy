/**
 * The two display helpers: the countdown text of the floating clock and
 * the urgency colour of its background.
 */
module Utils {
  import opened JsText
  import Types

  // ---------------------------------------------------------------------
  // Countdown text
  // ---------------------------------------------------------------------

  /** A duration split into whole hours, minutes and seconds. */
  datatype Hms = Hms(hours: nat, minutes: nat, seconds: nat)

  /**
   * The whole hours, minutes and seconds in `ms` milliseconds; the
   * milliseconds below a whole second are dropped.
   */
  function Decompose(ms: nat): (c: Hms)
    ensures c.minutes < 60 && c.seconds < 60
  {
    var totalSeconds := ms / 1000;
    Hms(totalSeconds / 3600, (totalSeconds % 3600) / 60, totalSeconds % 60)
  }

  /** The decomposition is exact: the parts add up to the whole seconds in `ms`. */
  lemma DecomposeExact(ms: nat)
    ensures var c := Decompose(ms);
            c.hours * 3600 + c.minutes * 60 + c.seconds == ms / 1000
  {
    var ts := ms / 1000;
    var h, r := ts / 3600, ts % 3600;
    var m, s := r / 60, r % 60;
    assert ts == h * 3600 + r;
    assert r == m * 60 + s;
    MinuteRemainder(ts, h * 60 + m, s);
  }

  /** Dividing by 60: a quotient and a remainder below 60 determine the remainder. */
  lemma MinuteRemainder(a: int, q: int, r: int)
    requires a == q * 60 + r && 0 <= r < 60
    ensures a % 60 == r
  {
  }

  /** Two-character zero padding of a count: `n.toString().padStart(2, '0')`. */
  function Pad(n: nat): (s: string)
    ensures 2 <= |s|
    ensures n < 100 ==> |s| == 2
  {
    PadStart(ToDecimal(n), 2, '0')
  }

  /** The padded text is all digits and reads back as the number it was made from. */
  lemma PadValue(n: nat)
    ensures IsDigits(Pad(n)) && ':' !in Pad(n)
    ensures DigitsValue(Pad(n)) == n
  {
    var d := ToDecimal(n);
    DigitsValueOfToDecimal(n);
    ToDecimalDigits(n);
    if |d| < 2 {
      assert Pad(n) == ['0'] + d;
      LeadingZero(d);
    } else {
      assert Pad(n) == d;
    }
  }

  /**
   * The countdown text for `ms` remaining milliseconds: "00:00" when no
   * time is left, hours and minutes from one hour up, minutes and seconds
   * below an hour.
   */
  function FormatTimeRemaining(ms: int): (r: string)
    ensures ms <= 0 ==> r == "00:00"
  {
    if ms <= 0 then "00:00"
    else
      var c := Decompose(ms);
      if c.hours > 0 then Pad(c.hours) + ":" + Pad(c.minutes)
      else Pad(c.minutes) + ":" + Pad(c.seconds)
  }

  /**
   * The countdown text splits at its colon into two digit fields: hours
   * and minutes from one hour up, two-digit minutes and seconds below.
   */
  lemma FormatTimeRemainingReadsBack(ms: int)
    requires ms > 0
    ensures var c := Decompose(ms);
            var parts := Split(FormatTimeRemaining(ms), ':');
            && |parts| == 2
            && IsDigits(parts[0]) && IsDigits(parts[1]) && |parts[1]| == 2
            && (c.hours > 0 ==> DigitsValue(parts[0]) == c.hours && DigitsValue(parts[1]) == c.minutes)
            && (c.hours == 0 ==> |parts[0]| == 2 && DigitsValue(parts[0]) == c.minutes
                                 && DigitsValue(parts[1]) == c.seconds)
  {
    var c := Decompose(ms);
    var lead, trail := if c.hours > 0 then c.hours else c.minutes, if c.hours > 0 then c.minutes else c.seconds;
    assert FormatTimeRemaining(ms) == Pad(lead) + [':'] + Pad(trail);
    PadValue(lead);
    PadValue(trail);
    SplitAtSeparator(Pad(lead), Pad(trail), ':');
  }

  /** Milliseconds below a whole second never change the text. */
  lemma FormatTimeRemainingTruncates(a: int, b: int)
    requires a > 0 && b > 0 && a / 1000 == b / 1000
    ensures FormatTimeRemaining(a) == FormatTimeRemaining(b)
  {
  }

  /** Below one hour the text is the padded minutes and seconds. */
  lemma FormatTimeRemainingBelowHour(ms: int)
    requires 0 < ms < 3_600_000
    ensures var c := Decompose(ms);
            c.hours == 0 && FormatTimeRemaining(ms) == Pad(c.minutes) + ":" + Pad(c.seconds)
  {
    assert (ms / 1000) / 3600 == 0;
  }

  /** From one hour up the text is the padded hours and minutes; the seconds are dropped. */
  lemma FormatTimeRemainingFromHour(ms: int)
    requires ms >= 3_600_000
    ensures var c := Decompose(ms);
            c.hours > 0 && FormatTimeRemaining(ms) == Pad(c.hours) + ":" + Pad(c.minutes)
  {
    assert (ms / 1000) / 3600 > 0;
  }

  // ---------------------------------------------------------------------
  // Urgency colour
  // ---------------------------------------------------------------------

  datatype Rgb = Rgb(red: int, green: int, blue: int)

  const Green := Rgb(34, 197, 94)
  const Yellow := Rgb(234, 179, 8)
  const Red := Rgb(239, 68, 68)

  /** `Math.round`: the nearest integer, halves rounded up. */
  function Round(x: real): (r: int)
    ensures x - 0.5 < r as real <= x + 0.5
  {
    (x + 0.5).Floor
  }

  function Min(a: int, b: int): int { if a <= b then a else b }
  function Max(a: int, b: int): int { if a <= b then b else a }

  /** Rounding a value between two integers stays between them. */
  lemma RoundBetween(x: real, lo: int, hi: int)
    requires lo as real <= x <= hi as real
    ensures lo <= Round(x) <= hi
  {
  }

  /** Scaling a difference by a fraction in [0, 1] keeps it between 0 and the difference. */
  lemma ScaleBetween(d: real, t: real)
    requires 0.0 <= t <= 1.0
    ensures d >= 0.0 ==> 0.0 <= d * t <= d
    ensures d < 0.0 ==> d <= d * t <= 0.0
  {
    if d >= 0.0 {
      assert d * t <= d * 1.0;
    } else {
      assert d * 1.0 <= d * t;
    }
  }

  /**
   * One channel blended from `from` towards `to` by the fraction `t` and
   * rounded: it starts at `from`, ends at `to` and stays between them.
   */
  function Mix(from: int, to: int, t: real): (v: int)
    requires 0.0 <= t <= 1.0
    ensures Min(from, to) <= v <= Max(from, to)
    ensures t == 0.0 ==> v == from
    ensures t == 1.0 ==> v == to
    ensures -0.5 <= v as real - (from as real + (to - from) as real * t) <= 0.5
  {
    var d := (to - from) as real;
    var x := from as real + d * t;
    MixBetween(from, to, t);
    RoundBetween(x, Min(from, to), Max(from, to));
    Round(x)
  }

  /** The unrounded blend lies between the two ends. */
  lemma MixBetween(from: int, to: int, t: real)
    requires 0.0 <= t <= 1.0
    ensures var x := from as real + (to - from) as real * t;
            Min(from, to) as real <= x <= Max(from, to) as real
  {
    var d := (to - from) as real;
    ScaleBetween(d, t);
    assert d == to as real - from as real;
    if from <= to {
      assert 0.0 <= d * t <= d;
    } else {
      assert d <= d * t <= 0.0;
    }
  }

  /** Each channel of `c` lies between that channel of `a` and of `b`. */
  predicate Between(c: Rgb, a: Rgb, b: Rgb)
  {
    && Min(a.red, b.red) <= c.red <= Max(a.red, b.red)
    && Min(a.green, b.green) <= c.green <= Max(a.green, b.green)
    && Min(a.blue, b.blue) <= c.blue <= Max(a.blue, b.blue)
  }

  function Blend(a: Rgb, b: Rgb, t: real): (c: Rgb)
    requires 0.0 <= t <= 1.0
    ensures Between(c, a, b)
    ensures t == 0.0 ==> c == a
    ensures t == 1.0 ==> c == b
  {
    Rgb(Mix(a.red, b.red, t), Mix(a.green, b.green, t), Mix(a.blue, b.blue, t))
  }

  /** The fraction clamped into [0, 1]. */
  function Clamp01(p: real): (q: real)
    ensures 0.0 <= q <= 1.0
    ensures 0.0 <= p <= 1.0 ==> q == p
    ensures p < 0.0 ==> q == 0.0
    ensures p > 1.0 ==> q == 1.0
  {
    if p < 0.0 then 0.0 else if p > 1.0 then 1.0 else p
  }

  /**
   * The urgency colour for a fraction of time left: red at 0, yellow at
   * one half, green at 1, blended in between; fractions outside [0, 1]
   * take the colour of the nearer end.
   */
  function UrgencyRgb(percentage: real): (c: Rgb)
    ensures percentage <= 0.0 ==> c == Red
    ensures percentage == 0.5 ==> c == Yellow
    ensures percentage >= 1.0 ==> c == Green
    ensures percentage > 0.5 ==> Between(c, Yellow, Green)
    ensures percentage <= 0.5 ==> Between(c, Red, Yellow)
    ensures 0 <= c.red <= 255 && 0 <= c.green <= 255 && 0 <= c.blue <= 255
  {
    var p := Clamp01(percentage);
    if p > 0.5 then Blend(Yellow, Green, (p - 0.5) * 2.0)
    else Blend(Red, Yellow, p * 2.0)
  }

  /** Fractions below 0 and above 1 are clamped before blending. */
  lemma UrgencyRgbClamps(p: real)
    ensures p < 0.0 ==> UrgencyRgb(p) == UrgencyRgb(0.0)
    ensures p > 1.0 ==> UrgencyRgb(p) == UrgencyRgb(1.0)
  {
  }

  /** The two blending formulas meet at one half: both give yellow there. */
  lemma UrgencyContinuousAtHalf()
    ensures Blend(Yellow, Green, (0.5 - 0.5) * 2.0) == Blend(Red, Yellow, 0.5 * 2.0) == Yellow
  {
  }

  /** The CSS text `rgb(r, g, b)` of a colour with non-negative channels. */
  function Css(c: Rgb): (css: string)
    requires c.red >= 0 && c.green >= 0 && c.blue >= 0
    ensures |css| >= 12 && css[..4] == "rgb(" && css[|css| - 1] == ')'
  {
    "rgb(" + ToDecimal(c.red) + ", " + ToDecimal(c.green) + ", " + ToDecimal(c.blue) + ")"
  }

  /**
   * The text between the parentheses splits at its commas into the three
   * channels, each read back as its value (after the space for the
   * second and third).
   */
  lemma CssReadsBack(c: Rgb)
    requires c.red >= 0 && c.green >= 0 && c.blue >= 0
    ensures Split(Css(c)[4..|Css(c)| - 1], ',') == [ToDecimal(c.red), " " + ToDecimal(c.green), " " + ToDecimal(c.blue)]
    ensures NumberOf(ToDecimal(c.red)) == Types.Some(c.red)
    ensures NumberOf(ToDecimal(c.green)) == Types.Some(c.green)
    ensures NumberOf(ToDecimal(c.blue)) == Types.Some(c.blue)
  {
    var r, g, b := ToDecimal(c.red), ToDecimal(c.green), ToDecimal(c.blue);
    DigitsValueOfToDecimal(c.red);
    DigitsValueOfToDecimal(c.green);
    DigitsValueOfToDecimal(c.blue);
    NoCommaInDigits(r);
    NoCommaInDigits(g);
    NoCommaInDigits(b);
    var inner := r + ", " + g + ", " + b;
    assert Css(c) == "rgb(" + inner + ")";
    assert Css(c)[4..|Css(c)| - 1] == inner;
    SplitFields(r, g, b);
  }

  /** Three comma-free fields joined by ", " split back at the commas. */
  lemma SplitFields(r: string, g: string, b: string)
    requires ',' !in r && ',' !in g && ',' !in b
    ensures Split(r + ", " + g + ", " + b, ',') == [r, " " + g, " " + b]
  {
    var g', b' := [' '] + g, [' '] + b;
    SpacedCommaFree(g);
    SpacedCommaFree(b);
    var rest := g' + [','] + b';
    SplitAtSeparator(g', b', ',');
    SplitAfterPiece(r, rest, ',');
    FieldsAtCommas(r, g, b);
    assert [r] + [g', b'] == [r, g', b'];
  }

  lemma SpacedCommaFree(s: string)
    requires ',' !in s
    ensures ',' !in [' '] + s
  {
    assert forall i :: 1 <= i < |[' '] + s| ==> ([' '] + s)[i] == s[i - 1];
  }

  lemma FieldsAtCommas(r: string, g: string, b: string)
    ensures r + ", " + g + ", " + b == r + [','] + (([' '] + g) + [','] + ([' '] + b))
  {
    assert ", " == [','] + [' '];
  }

  lemma NoCommaInDigits(s: string)
    requires IsDigits(s)
    ensures ',' !in s
  {
  }

  /** `getUrgencyColor`: the urgency colour as CSS text. */
  function GetUrgencyColor(percentage: real): (css: string)
    ensures percentage >= 1.0 ==> css == "rgb(34, 197, 94)"
    ensures percentage == 0.5 ==> css == "rgb(234, 179, 8)"
    ensures percentage <= 0.0 ==> css == "rgb(239, 68, 68)"
  {
    CssOfAnchors();
    Css(UrgencyRgb(percentage))
  }

  /** The CSS text of the three anchor colours. */
  lemma CssOfAnchors()
    ensures Css(Green) == "rgb(34, 197, 94)"
    ensures Css(Yellow) == "rgb(234, 179, 8)"
    ensures Css(Red) == "rgb(239, 68, 68)"
  {
    AnchorDigits();
  }

  lemma AnchorDigits()
    ensures ToDecimal(34) == "34" && ToDecimal(197) == "197" && ToDecimal(94) == "94"
    ensures ToDecimal(234) == "234" && ToDecimal(179) == "179" && ToDecimal(8) == "8"
    ensures ToDecimal(239) == "239" && ToDecimal(68) == "68"
  {
    assert ToDecimal(19) == "19";
    assert ToDecimal(23) == "23";
    assert ToDecimal(17) == "17";
  }
}
