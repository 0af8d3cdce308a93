/** The total-count annotation of the interactive entry point: the text
    `"Total Rice Grains: " + str(total)`, centred horizontally near the top,
    and the padded background box around it. The text extent comes from
    `cv2.getTextSize`, which is an input here. */
module Overlay {

  /** The digit character for 0..9. */
  function DigitChar(d: nat): char
    requires d < 10
  {
    "0123456789"[d]
  }

  /** The value of a digit character. */
  function DigitValue(c: char): nat {
    if '0' <= c <= '9' then (c as int - '0' as int) as nat else 0
  }

  /** Python's `str(n)` for a natural number: decimal, no leading zeros. */
  function DecimalString(n: nat): (s: string)
    ensures |s| >= 1
    ensures forall k :: 0 <= k < |s| ==> '0' <= s[k] <= '9'
    ensures |s| > 1 ==> s[0] != '0'
  {
    if n < 10 then [DigitChar(n)] else DecimalString(n / 10) + [DigitChar(n % 10)]
  }

  /** Read a string of digits back as a number. */
  function ParseDecimal(s: string): nat {
    if s == [] then 0 else 10 * ParseDecimal(s[..|s| - 1]) + DigitValue(s[|s| - 1])
  }

  lemma DigitRoundTrip(d: nat)
    requires d < 10
    ensures DigitValue(DigitChar(d)) == d
  {
  }

  /** The decimal text of a count reads back as that count. */
  lemma {:induction false} DecimalRoundTrip(n: nat)
    ensures ParseDecimal(DecimalString(n)) == n
  {
    if n < 10 {
      DigitRoundTrip(n);
      assert DecimalString(n)[..0] == [];
    } else {
      var s := DecimalString(n);
      DecimalRoundTrip(n / 10);
      DigitRoundTrip(n % 10);
      assert s[..|s| - 1] == DecimalString(n / 10);
    }
  }

  /** Different counts get different texts. */
  lemma DecimalInjective(a: nat, b: nat)
    requires DecimalString(a) == DecimalString(b)
    ensures a == b
  {
    DecimalRoundTrip(a);
    DecimalRoundTrip(b);
  }

  const TotalPrefix := "Total Rice Grains: "

  /** `f"Total Rice Grains: {total_count}"`. */
  function TotalText(total: nat): (s: string)
    ensures |s| > |TotalPrefix| && s[..|TotalPrefix|] == TotalPrefix
  {
    TotalPrefix + DecimalString(total)
  }

  /** The overlay text states the total: what follows the fixed prefix reads
      back as the total count. */
  lemma TotalTextStatesTotal(total: nat)
    ensures ParseDecimal(TotalText(total)[|TotalPrefix|..]) == total
  {
    assert TotalText(total)[|TotalPrefix|..] == DecimalString(total);
    DecimalRoundTrip(total);
  }

  /** Text width and height from `getTextSize`. */
  datatype Size = Size(w: nat, h: nat)

  /** A box by its left, top, right and bottom coordinates. */
  datatype Box = Box(left: int, top: int, right: int, bottom: int)

  /** Where the text goes: its baseline-left anchor and its padded box. */
  datatype Placement = Placement(x: int, y: int, background: Box)

  /** The padding around the text box. */
  const Padding := 10

  /** The distance of the text box's top edge from the top of the image. */
  const TopMargin := 50

  /** `text_x = (width - w) // 2`, `text_y = 50 + h` and the padded box.
      Python's `//` floors; with a positive divisor Dafny's `/` is the same. */
  function Place(width: int, text: Size): (p: Placement)
    ensures 2 * p.x <= width - text.w < 2 * p.x + 2
    ensures p.y == TopMargin + text.h
  {
    var x := (width - text.w) / 2;
    var y := TopMargin + text.h;
    Placement(x, y, Box(x - Padding, y - text.h - Padding, x + text.w + Padding, y + Padding))
  }

  /** The text is centred: the space left of it is the space right of it,
      or one pixel less when the slack is odd; this holds also when the text is
      wider than the image (negative slack). */
  lemma PlaceCentres(width: int, text: Size)
    ensures var p := Place(width, text);
      var right := width - (p.x + text.w);
      right - p.x == (width - text.w) % 2 && 0 <= right - p.x <= 1
  {
  }

  /** The text's top edge sits 50 pixels below the top of the image, and the
      background box extends the text box by exactly 10 on every side. */
  lemma PlaceBox(width: int, text: Size)
    ensures var p := Place(width, text);
      && p.y - text.h == TopMargin
      && p.background.left == p.x - Padding
      && p.background.top == (p.y - text.h) - Padding
      && p.background.right == (p.x + text.w) + Padding
      && p.background.bottom == p.y + Padding
      && p.background.right - p.background.left == text.w + 2 * Padding
      && p.background.bottom - p.background.top == text.h + 2 * Padding
  {
  }
}
