// The AHP intensity scale used by the expert scoring system: the slider
// options, their verbal meanings, the random-consistency baseline table,
// the slider label format and the snap of a stored value to the nearest option.

module Scale {
  import opened Wrappers

  /** The slider options, in the order they are offered (app.py:374). */
  const AhpScales: seq<real> :=
    [1.0 / 5.0, 1.0 / 4.0, 1.0 / 3.0, 1.0 / 2.0, 1.0, 2.0, 3.0, 4.0, 5.0]

  /** The verbal meaning of every scale value (app.py:361-371). */
  const ScaleMeanings: map<real, string> := map[
    1.0 := "同等重要",
    2.0 := "稍微重要",
    3.0 := "明显重要",
    4.0 := "强烈重要",
    5.0 := "极端重要",
    1.0 / 2.0 := "稍微不重要",
    1.0 / 3.0 := "明显不重要",
    1.0 / 4.0 := "强烈不重要",
    1.0 / 5.0 := "极端不重要"
  ]

  /** Random-consistency index RI(n) for matrix orders 1..10 (app.py:377-380). */
  const RiValues: map<int, real> := map[
    1 := 0.0, 2 := 0.0, 3 := 0.58, 4 := 0.90, 5 := 1.12,
    6 := 1.24, 7 := 1.32, 8 := 1.41, 9 := 1.45, 10 := 1.49
  ]

  /** The value `ri_values.get(n, 1.45)` falls back on (app.py:631). */
  const DefaultRandomIndex: real := 1.45

  /** RI lookup with its default (app.py:631). */
  function RandomIndex(n: int): (ri: real)
    ensures 1 <= n <= 10 ==> ri == RiValues[n]
    ensures !(1 <= n <= 10) ==> ri == DefaultRandomIndex
    ensures ri >= 0.0
    ensures ri == 0.0 <==> n == 1 || n == 2
  {
    if n in RiValues then RiValues[n] else DefaultRandomIndex
  }

  /** Every scale value is positive, has a meaning, and its reciprocal is
      again a scale value (the mirror position in the option list). */
  lemma {:induction false} ScaleClosedUnderReciprocal()
    ensures |AhpScales| == 9
    ensures forall k :: 0 <= k < 9 ==> AhpScales[k] > 0.0
    ensures forall k :: 0 <= k < 9 ==> AhpScales[8 - k] == 1.0 / AhpScales[k]
    ensures forall k :: 0 <= k < 9 ==> AhpScales[k] in ScaleMeanings
    ensures forall x :: x in ScaleMeanings <==> x in AhpScales
  {
  }

  /** The options are listed in strictly increasing order, so no two coincide. */
  lemma {:induction false} ScaleStrictlyIncreasing()
    ensures forall i, j :: 0 <= i < j < |AhpScales| ==> AhpScales[i] < AhpScales[j]
  {
  }

  lemma {:induction false} InScale(s: real)
    requires s in AhpScales
    ensures s > 0.0 && 1.0 / s in AhpScales
    ensures s in ScaleMeanings && 1.0 / s in ScaleMeanings
  {
    ScaleClosedUnderReciprocal();
    var k :| 0 <= k < |AhpScales| && AhpScales[k] == s;
    assert AhpScales[8 - k] == 1.0 / s;
  }

  // ---------------------------------------------------------------------
  // Slider labels (format_scale_label)

  predicate IsDigit(c: char)
  {
    '0' <= c <= '9'
  }

  function DigitChar(d: nat): (c: char)
    requires d < 10
    ensures IsDigit(c)
  {
    ['0', '1', '2', '3', '4', '5', '6', '7', '8', '9'][d]
  }

  function DigitValue(c: char): (d: nat)
    requires IsDigit(c)
    ensures d < 10
  {
    (c as int - '0' as int) as nat
  }

  /** Decimal rendering of a natural number, as Python's str(int) writes it. */
  function DecimalString(n: nat): (s: string)
    ensures |s| >= 1
    ensures forall i :: 0 <= i < |s| ==> IsDigit(s[i])
  {
    if n < 10 then [DigitChar(n)] else DecimalString(n / 10) + [DigitChar(n % 10)]
  }

  /** The value of a string of digits. */
  function DigitsValue(d: string): nat
    requires forall i :: 0 <= i < |d| ==> IsDigit(d[i])
    decreases |d|
  {
    if |d| == 0 then 0 else DigitsValue(d[..|d| - 1]) * 10 + DigitValue(d[|d| - 1])
  }

  /** The longest prefix of s made of digits. */
  function LeadingDigits(s: string): (d: string)
    ensures |d| <= |s| && d == s[..|d|]
    ensures forall i :: 0 <= i < |d| ==> IsDigit(d[i])
    decreases |s|
  {
    if |s| > 0 && IsDigit(s[0]) then [s[0]] + LeadingDigits(s[1..]) else []
  }

  lemma {:induction false} DigitCharValue(d: nat)
    requires d < 10
    ensures DigitValue(DigitChar(d)) == d
  {
  }

  lemma {:induction false} DecimalStringValue(n: nat)
    ensures DigitsValue(DecimalString(n)) == n
  {
    var s := DecimalString(n);
    if n < 10 {
      DigitCharValue(n);
      assert s[..0] == [];
    } else {
      DecimalStringValue(n / 10);
      DigitCharValue(n % 10);
      assert s[..|s| - 1] == DecimalString(n / 10);
    }
  }

  lemma {:induction false} LeadingDigitsOfPrefix(d: string, rest: string)
    requires forall i :: 0 <= i < |d| ==> IsDigit(d[i])
    requires rest == [] || !IsDigit(rest[0])
    ensures LeadingDigits(d + rest) == d
    decreases |d|
  {
    if |d| > 0 {
      assert (d + rest)[1..] == d[1..] + rest;
      LeadingDigitsOfPrefix(d[1..], rest);
    } else {
      assert d + rest == rest;
    }
  }

  /** The slider label of a scale value (app.py:478-483); a value with no
      recorded meaning makes the dictionary lookup fail, modelled as None. */
  function FormatScaleLabel(scale: real): (text: Option<string>)
    ensures text.Some? <==> scale in ScaleMeanings
  {
    if scale !in ScaleMeanings then None
    else
      assert scale > 0.0;
      if scale < 1.0 then
        var k := (1.0 / scale).Floor;
        Some("1/" + DecimalString(if k < 0 then 0 else k) + " - " + ScaleMeanings[scale])
      else
        Some(DecimalString(scale.Floor) + " - " + ScaleMeanings[scale])
  }

  /** Reads back the numeral at the head of a label: `k` or `1/k`. */
  function LabelValue(text: string): Option<real>
  {
    var d1 := LeadingDigits(text);
    var rest := text[|d1|..];
    if |d1| == 0 then None
    else if |rest| > 0 && rest[0] == '/' then
      var d2 := LeadingDigits(rest[1..]);
      if |d2| == 0 || DigitsValue(d2) == 0 then None
      else Some((DigitsValue(d1) as real) / (DigitsValue(d2) as real))
    else Some(DigitsValue(d1) as real)
  }

  lemma {:induction false} IntegerLabelValue(k: nat, tail: string)
    requires k >= 1
    ensures LabelValue(DecimalString(k) + " - " + tail) == Some(k as real)
  {
    var d := DecimalString(k);
    var lbl := d + " - " + tail;
    assert lbl == d + (" - " + tail);
    LeadingDigitsOfPrefix(d, " - " + tail);
    assert lbl[|d|..] == " - " + tail;
    DecimalStringValue(k);
  }

  lemma {:induction false} ReciprocalLabelValue(k: nat, tail: string)
    requires k >= 1
    ensures LabelValue("1/" + DecimalString(k) + " - " + tail) == Some(1.0 / (k as real))
  {
    var d := DecimalString(k);
    var lbl := "1/" + d + " - " + tail;
    assert lbl == "1" + ("/" + d + " - " + tail);
    LeadingDigitsOfPrefix("1", "/" + d + " - " + tail);
    var rest := lbl[1..];
    assert rest == "/" + d + " - " + tail;
    assert rest[1..] == d + (" - " + tail);
    LeadingDigitsOfPrefix(d, " - " + tail);
    DecimalStringValue(k);
    assert DigitsValue("1") == 1 by {
      assert "1"[..0] == [];
    }
  }

  /** The integer k a scale value is written with: k itself, or 1/k below 1. */
  lemma {:induction false} ScaleNumeral(s: real) returns (k: nat)
    requires s in AhpScales
    ensures k >= 1
    ensures s < 1.0 ==> (1.0 / s).Floor == k && 1.0 / (k as real) == s
    ensures s >= 1.0 ==> s.Floor == k && k as real == s
  {
    var i :| 0 <= i < |AhpScales| && AhpScales[i] == s;
    if i < 4 {
      k := 5 - i;
      assert 1.0 / s == k as real;
    } else {
      k := i - 3;
    }
  }

  /** A value with a meaning, written with the integer k, reads back from its label. */
  lemma {:induction false} LabelOfNumeral(s: real, k: nat)
    requires s in ScaleMeanings && s > 0.0 && k >= 1
    requires s < 1.0 ==> (1.0 / s).Floor == k && 1.0 / (k as real) == s
    requires s >= 1.0 ==> s.Floor == k && k as real == s
    ensures FormatScaleLabel(s).Some?
    ensures LabelValue(FormatScaleLabel(s).value) == Some(s)
  {
    var tail := ScaleMeanings[s];
    if s < 1.0 {
      ReciprocalLabelValue(k, tail);
    } else {
      IntegerLabelValue(k, tail);
    }
  }

  /** Every scale value has a label, and the label's numeral reads back as
      that very value, so distinct options show distinct labels. */
  lemma {:induction false} LabelRoundTrip(s: real)
    requires s in AhpScales
    ensures FormatScaleLabel(s).Some?
    ensures LabelValue(FormatScaleLabel(s).value) == Some(s)
  {
    InScale(s);
    var k := ScaleNumeral(s);
    LabelOfNumeral(s, k);
  }

  // ---------------------------------------------------------------------
  // The verbal feedback shown under a slider (app.py:565-572)

  datatype Choice =
    | Favours(meaning: string, mirrored: string)     // importance > 1
    | Disfavours(meaning: string, mirrored: string)  // importance < 1
    | Equally                                        // importance == 1

  /** The meaning of the chosen value and of its reciprocal; a value whose
      meaning (or whose reciprocal's meaning) is not recorded fails the
      lookup, modelled as None. */
  function DescribeChoice(importance: real): (r: Option<Choice>)
    ensures r.Some? <==> (importance == 1.0 ||
      (importance != 0.0 && importance in ScaleMeanings && 1.0 / importance in ScaleMeanings))
  {
    if importance == 1.0 then Some(Equally)
    else if importance == 0.0 || importance !in ScaleMeanings || 1.0 / importance !in ScaleMeanings then None
    else if importance > 1.0 then Some(Favours(ScaleMeanings[importance], ScaleMeanings[1.0 / importance]))
    else Some(Disfavours(ScaleMeanings[importance], ScaleMeanings[1.0 / importance]))
  }

  /** For every option the lookups of app.py:565-570 succeed, and the choice
      read from the other side of the pair is its mirror image. */
  lemma {:induction false} ChoiceMirrored(s: real)
    requires s in AhpScales
    ensures DescribeChoice(s).Some? && DescribeChoice(1.0 / s).Some?
    ensures s > 1.0 ==>
      DescribeChoice(s) == Some(Favours(ScaleMeanings[s], ScaleMeanings[1.0 / s])) &&
      DescribeChoice(1.0 / s) == Some(Disfavours(ScaleMeanings[1.0 / s], ScaleMeanings[s]))
    ensures s < 1.0 ==>
      DescribeChoice(s) == Some(Disfavours(ScaleMeanings[s], ScaleMeanings[1.0 / s])) &&
      DescribeChoice(1.0 / s) == Some(Favours(ScaleMeanings[1.0 / s], ScaleMeanings[s]))
    ensures s == 1.0 ==> DescribeChoice(s) == Some(Equally)
  {
    InScale(s);
    assert 1.0 / (1.0 / s) == s;
  }

  // ---------------------------------------------------------------------
  // Snapping a stored value to the nearest option (app.py:553)

  function Distance(x: real, v: real): real
  {
    if x >= v then x - v else v - x
  }

  /** Index that `min(options, key=lambda x: abs(x - v))` picks: a scan from
      the left that replaces its candidate only on a strictly smaller distance. */
  function NearestIndex(options: seq<real>, v: real): (k: nat)
    requires |options| > 0
    ensures k < |options|
    ensures forall i :: 0 <= i < |options| ==> Distance(options[k], v) <= Distance(options[i], v)
    ensures forall i :: 0 <= i < k ==> Distance(options[i], v) > Distance(options[k], v)
    decreases |options|
  {
    if |options| == 1 then 0
    else
      var k := NearestIndex(options[..|options| - 1], v);
      if Distance(options[|options| - 1], v) < Distance(options[k], v) then |options| - 1 else k
  }

  /** The slider default for a stored matrix entry. */
  function NearestScale(v: real): (r: real)
    ensures r in AhpScales
    ensures forall s :: s in AhpScales ==> Distance(r, v) <= Distance(s, v)
  {
    AhpScales[NearestIndex(AhpScales, v)]
  }

  /** When two options are equally close to the value and no option is closer,
      the snapped default is the lower of the two. */
  lemma {:induction false} NearestScaleEarliestOnTies(v: real, i: nat, j: nat)
    requires i < j < |AhpScales|
    requires Distance(AhpScales[i], v) == Distance(AhpScales[j], v)
    requires forall s :: s in AhpScales ==> Distance(AhpScales[i], v) <= Distance(s, v)
    ensures NearestScale(v) == AhpScales[i]
  {
    ScaleStrictlyIncreasing();
    var k := NearestIndex(AhpScales, v);
    assert AhpScales[k] in AhpScales;
    assert Distance(AhpScales[k], v) == Distance(AhpScales[i], v);
  }

  /** A value that already is an option snaps to itself. */
  lemma {:induction false} SnapIdempotent(s: real)
    requires s in AhpScales
    ensures NearestScale(s) == s
  {
    var r := NearestScale(s);
    assert Distance(s, s) == 0.0;
    assert Distance(r, s) <= 0.0;
  }
}
