/** The clan bonus shown with the level: `boss_bonus_string` and
    `number_with_suffix`. Ruby computes with binary floating point; this
    model computes with exact reals, so the two renderings can differ only
    where a float lands on the other side of a rounding boundary. */
module Suffixes {
  import opened Text

  /** `SUFFIXES`: one per division by 1000. */
  const SUFFIXES: seq<string> := ["K", "M", "B", "T", "aa", "ab", "ac", "ad", "ae"]

  /** The level up to which each level multiplies the bonus by 1.1; past it,
      each further level multiplies it by 1.05. */
  const BONUS_CAP: int := 200

  function Pow(base: real, e: nat): (r: real)
    ensures base > 0.0 ==> r > 0.0
  {
    if e == 0 then 1.0 else base * Pow(base, e - 1)
  }

  /** Ruby's `base ** e` for an integer exponent, negative ones included. */
  function PowInt(base: real, e: int): real
    requires base > 0.0
  {
    if e >= 0 then Pow(base, e) else 1.0 / Pow(base, -e)
  }

  /** The bonus percentage `boss_bonus_string` computes for a level. */
  function BonusPercent(level: int): real {
    var over := if level > BONUS_CAP then Pow(1.05, level - BONUS_CAP) else 1.0;
    var capped := if level > BONUS_CAP then BONUS_CAP else level;
    (over * PowInt(1.1, capped) - 1.0) * 100.0
  }

  /** The loop of `number_with_suffix` as a recursion: starting from suffix
      position `pos`, divide by 1000 while the number exceeds 1000 and a
      further suffix remains. Gives the mantissa and the final position
      (-1 for no suffix). */
  function Scale(number: real, pos: int): (real, int)
    requires -1 <= pos < |SUFFIXES|
    decreases |SUFFIXES| - pos
  {
    if number > 1000.0 && pos < |SUFFIXES| - 1 then Scale(number / 1000.0, pos + 1)
    else (number, pos)
  }

  /** The mantissa multiplied back by 1000 once per division. */
  function Unscale(mantissa: real, divisions: nat): real {
    if divisions == 0 then mantissa else 1000.0 * Unscale(mantissa, divisions - 1)
  }

  /** What the scaling achieves: multiplying the mantissa back by 1000 once
      per division gives the number; at most nine divisions; the mantissa is
      at most 1000 unless the suffixes ran out; and it is above 1 whenever a
      division happened. */
  lemma {:induction false} ScaleBounds(number: real, pos: int)
    requires -1 <= pos < |SUFFIXES|
    ensures pos <= Scale(number, pos).1 < |SUFFIXES|
    ensures Unscale(Scale(number, pos).0, Scale(number, pos).1 - pos) == number
    ensures Scale(number, pos).1 < |SUFFIXES| - 1 ==> Scale(number, pos).0 <= 1000.0
    ensures Scale(number, pos).1 > pos ==> Scale(number, pos).0 > 1.0
    decreases |SUFFIXES| - pos
  {
    if number > 1000.0 && pos < |SUFFIXES| - 1 {
      ScaleBounds(number / 1000.0, pos + 1);
    }
  }

  /** `"%.2f" % x`: rounded to two decimals, half away from zero. */
  function Fixed2(x: real): string {
    var magnitude := if x < 0.0 then -x else x;
    var cents := (magnitude * 100.0 + 0.5).Floor;
    (if x < 0.0 then "-" else "")
    + NatToString(cents / 100) + "." + [DigitChar(cents % 100 / 10), DigitChar(cents % 10)]
  }

  /** The text `number_with_suffix(number)` returns. */
  function SuffixedText(number: real): string {
    var (mantissa, pos) := Scale(number, -1);
    Fixed2(mantissa) + (if pos >= 0 then SUFFIXES[pos] else "")
  }

  /** `number_with_suffix`, with its loop over the suffix position. */
  method NumberWithSuffix(number: real) returns (text: string)
    ensures text == SuffixedText(number)
  {
    var suffixPos := -1;
    var n := number;
    while n > 1000.0 && suffixPos < |SUFFIXES| - 1
      invariant -1 <= suffixPos < |SUFFIXES|
      invariant Scale(n, suffixPos) == Scale(number, -1)
      decreases |SUFFIXES| - suffixPos
    {
      suffixPos := suffixPos + 1;
      n := n / 1000.0;
    }
    text := Fixed2(n);
    if suffixPos >= 0 {
      text := text + SUFFIXES[suffixPos];
    }
  }

  /** `boss_bonus_string` for a known level. */
  function BonusString(level: int): string {
    SuffixedText(BonusPercent(level)) + "%"
  }

  lemma {:induction false} PowAdd(base: real, m: nat, n: nat)
    ensures Pow(base, m + n) == Pow(base, m) * Pow(base, n)
  {
    if m > 0 {
      PowAdd(base, m - 1, n);
    }
  }

  // The bonus texts the unit tests pin down for levels 6, 11, 50 and 230.

  lemma BonusAtLevelSix()
    ensures BonusString(6) == "77.16%"
  {
    assert BonusPercent(6) == 77.1561;
    assert Scale(77.1561, -1) == (77.1561, -1);
    assert (77.1561 * 100.0 + 0.5).Floor == 7716;
    assert NatToString(77) == "77";
  }

  lemma BonusAtLevelEleven()
    ensures BonusString(11) == "185.31%"
  {
    var b := BonusPercent(11);
    assert 185.31 < b < 185.312;
    assert (b * 100.0 + 0.5).Floor == 18531;
    assert NatToString(185) == "185";
  }

  lemma PowTen()
    ensures Pow(1.1, 10) == 2.5937424601
  {
  }

  lemma PowFifty()
    ensures 117.3908528 < Pow(1.1, 50) < 117.3908529
  {
    PowTen();
    PowAdd(1.1, 10, 10);
    PowAdd(1.1, 20, 10);
    PowAdd(1.1, 30, 10);
    PowAdd(1.1, 40, 10);
  }

  lemma FixedOfEleven(x: real)
    requires 11.639 < x < 11.6391
    ensures Fixed2(x) == "11.64"
  {
    assert (x * 100.0 + 0.5).Floor == 1164;
    assert NatToString(11) == "11";
  }

  lemma BonusAtLevelFifty()
    ensures BonusString(50) == "11.64K%"
  {
    var b := BonusPercent(50);
    assert b == (Pow(1.1, 50) - 1.0) * 100.0;
    PowFifty();
    assert Scale(b, -1) == (b / 1000.0, 0);
    FixedOfEleven(b / 1000.0);
  }

  /** Products of positive reals lie between the products of their bounds. */
  lemma MulBounds(x: real, y: real, xl: real, xh: real, yl: real, yh: real)
    requires 0.0 < xl < x < xh && 0.0 < yl < y < yh
    ensures xl * yl < x * y < xh * yh
  {
    assert xl * yl < x * yl;
    assert x * yl < x * y;
    assert x * y < xh * y;
    assert xh * y < xh * yh;
  }

  lemma PowTwoHundred()
    ensures 189905274.0 < Pow(1.1, 200) < 189905279.0
  {
    PowFifty();
    PowAdd(1.1, 50, 50);
    MulBounds(Pow(1.1, 50), Pow(1.1, 50), 117.3908528, 117.3908529, 117.3908528, 117.3908529);
    assert 13780.6123 < Pow(1.1, 100) < 13780.6124;
    PowAdd(1.1, 100, 100);
    MulBounds(Pow(1.1, 100), Pow(1.1, 100), 13780.6123, 13780.6124, 13780.6123, 13780.6124);
  }

  lemma PowThirty()
    ensures 4.3219423751 < Pow(1.05, 30) < 4.3219423752
  {
    assert Pow(1.05, 10) == 1.62889462677744140625;
    PowAdd(1.05, 10, 10);
    PowAdd(1.05, 20, 10);
  }

  lemma FixedOfEightyTwo(x: real)
    requires 82.0759 < x < 82.076
    ensures Fixed2(x) == "82.08"
  {
    assert (x * 100.0 + 0.5).Floor == 8208;
    assert NatToString(82) == "82";
  }

  /** The percentage for two factors known to ten significant digits. */
  lemma BonusOfFactors(over: real, capped: real)
    requires 4.3219423751 < over < 4.3219423752 && 189905274.0 < capped < 189905279.0
    ensures 82075960000.0 < (over * capped - 1.0) * 100.0 < 82076000000.0
  {
    MulBounds(over, capped, 4.3219423751, 4.3219423752, 189905274.0, 189905279.0);
  }

  /** Above the cap, the bonus grows by 5% a level on top of the capped one. */
  lemma BonusAboveCap(level: int)
    requires level > BONUS_CAP
    ensures BonusPercent(level) == (Pow(1.05, level - BONUS_CAP) * Pow(1.1, BONUS_CAP) - 1.0) * 100.0
  {
  }

  /** From the cap on, each further level multiplies the bonus factor
      (the percentage plus 100) by 1.05. */
  lemma BonusGrowthAboveCap(level: int)
    requires level >= BONUS_CAP
    ensures BonusPercent(level + 1) + 100.0 == 1.05 * (BonusPercent(level) + 100.0)
  {
    BonusAboveCap(level + 1);
    var k := level - BONUS_CAP;
    assert Pow(1.05, k + 1) == 1.05 * Pow(1.05, k);
    if k > 0 {
      BonusAboveCap(level);
    } else {
      assert Pow(1.05, k) == 1.0;
    }
  }

  lemma BonusTwoThirtyBounds()
    ensures 82075960000.0 < BonusPercent(230) < 82076000000.0
  {
    BonusAboveCap(230);
    PowTwoHundred();
    PowThirty();
    BonusOfFactors(Pow(1.05, 30), Pow(1.1, 200));
  }

  /** A number of billions below a trillion is scaled three times. */
  lemma ScaleOfBillions(b: real)
    requires 1000000000000.0 > b > 1000000000.0
    ensures Scale(b, -1) == (b / 1000000000.0, 2)
  {
    assert Scale(b, -1) == Scale(b / 1000.0, 0);
    assert Scale(b / 1000.0, 0) == Scale(b / 1000.0 / 1000.0, 1);
    assert Scale(b / 1000.0 / 1000.0, 1) == Scale(b / 1000.0 / 1000.0 / 1000.0, 2);
    assert b / 1000.0 / 1000.0 / 1000.0 == b / 1000000000.0;
  }

  lemma BonusAtLevelTwoThirty()
    ensures BonusString(230) == "82.08B%"
  {
    var b := BonusPercent(230);
    BonusTwoThirtyBounds();
    ScaleOfBillions(b);
    FixedOfEightyTwo(b / 1000000000.0);
  }

}
