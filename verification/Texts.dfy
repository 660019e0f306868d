/** What the printed numbers and texts say, read back from their characters. */
module Texts {
  import opened Coverage
  import opened Checksums
  import opened Records

  function DigitValue(c: char): int {
    c as int - '0' as int
  }

  /** The number a text of digits stands for. */
  function ValueOf(s: string): int {
    if s == [] then 0 else ValueOf(s[..|s| - 1]) * 10 + DigitValue(s[|s| - 1])
  }

  predicate AllDigits(s: string) {
    forall i | 0 <= i < |s| :: '0' <= s[i] <= '9'
  }

  /** Digits without a leading zero, except for zero itself. */
  predicate IsNumeral(s: string) {
    s != [] && AllDigits(s) && (s[0] == '0' ==> |s| == 1)
  }

  lemma {:induction false} NumeralsArePositive(s: string)
    requires AllDigits(s)
    ensures ValueOf(s) >= 0
    ensures IsNumeral(s) && |s| > 1 ==> ValueOf(s) >= 10
  {
    if s != [] {
      NumeralsArePositive(s[..|s| - 1]);
      if |s| == 2 {
        assert ValueOf(s[..1]) == ValueOf(s[..1][..0]) * 10 + DigitValue(s[0]);
      }
    }
  }

  /** The decimal notation of a number is the only numeral that stands for it. */
  lemma {:induction false} DecimalIsTheNumeral(n: nat, s: string)
    ensures s == Decimal(n) <==> IsNumeral(s) && ValueOf(s) == n
  {
    DecimalReadsBack(n);
    if IsNumeral(s) && ValueOf(s) == n {
      var last := |s| - 1;
      NumeralsArePositive(s);
      NumeralsArePositive(s[..last]);
      if last == 0 {
        assert ValueOf(s) == ValueOf(s[..0]) * 10 + DigitValue(s[0]);
      } else {
        DecimalIsTheNumeral(n / 10, s[..last]);
        assert s == s[..last] + [s[last]];
      }
    }
  }

  lemma {:induction false} DecimalReadsBack(n: nat)
    ensures IsNumeral(Decimal(n)) && ValueOf(Decimal(n)) == n
    ensures n > 0 ==> Decimal(n)[0] != '0'
  {
    if n >= 10 {
      var s := Decimal(n);
      DecimalReadsBack(n / 10);
      assert s[..|s| - 1] == Decimal(n / 10);
      assert s[0] == Decimal(n / 10)[0];
    } else {
      assert ValueOf([Digit(n)][..0]) == 0;
    }
  }

  // ---------- Rounded numbers ----------

  /** The whole number nearest to `x`; of two that are equally near, the even one. */
  predicate IsNearest(k: int, x: real) {
    var error := x - k as real;
    -0.5 <= error <= 0.5 && (error == 0.5 || error == -0.5 ==> k % 2 == 0)
  }

  lemma NearestIsUnique(j: int, k: int, x: real)
    requires IsNearest(j, x) && IsNearest(k, x)
    ensures j == k
  {
    assert -1.0 <= (j - k) as real <= 1.0;
  }

  lemma RoundedIsNearest(x: real, k: int)
    requires x >= 0.0
    ensures k == Rounded(x) <==> IsNearest(k, x)
  {
    assert IsNearest(Rounded(x), x);
    if IsNearest(k, x) {
      NearestIsUnique(k, Rounded(x), x);
    }
  }

  /** A numeral, a point and `places` digits that together stand for the number of units of the last place. */
  predicate IsFixed(s: string, places: nat, units: int) {
    && |s| > places + 1
    && var point := |s| - places - 1;
       && IsNumeral(s[..point]) && s[point] == '.' && AllDigits(s[point + 1..])
       && ValueOf(s[..point] + s[point + 1..]) == units
  }

  lemma OneMoreDigit(s: string, d: nat)
    requires d < 10
    ensures ValueOf(s + [Digit(d)]) == ValueOf(s) * 10 + d
  {
    assert (s + [Digit(d)])[..|s|] == s;
  }

  lemma Fixed3ReadsBack(thousandths: nat)
    ensures IsFixed(Fixed3(thousandths), 3, thousandths)
  {
    var whole := Decimal(thousandths / 1000);
    var a, b, c := thousandths / 100 % 10, thousandths / 10 % 10, thousandths % 10;
    var s := Fixed3(thousandths);
    DecimalReadsBack(thousandths / 1000);
    OneMoreDigit(whole, a);
    OneMoreDigit(whole + [Digit(a)], b);
    OneMoreDigit(whole + [Digit(a)] + [Digit(b)], c);
    LastDigits(thousandths);
    assert s[..|whole|] == whole && s[|whole| + 1..] == [Digit(a), Digit(b), Digit(c)];
    assert whole + s[|whole| + 1..] == whole + [Digit(a)] + [Digit(b)] + [Digit(c)];
  }

  lemma Fixed1ReadsBack(x: real)
    requires x >= 0.0
    ensures IsFixed(Fixed1(x), 1, Rounded(x * 10.0))
  {
    hide Rounded;
    var tenths := Rounded(x * 10.0);
    var whole := Decimal(tenths / 10);
    var s := Fixed1(x);
    DecimalReadsBack(tenths / 10);
    OneMoreDigit(whole, tenths % 10);
    assert s[..|whole|] == whole && s[|whole| + 1..] == [Digit(tenths % 10)];
  }

  // ---------- Texts ----------

  ghost predicate IsDetectionText(text: string, metres: string, cells: string, fragments: string) {
    text == "以 " + metres + " 米网格分析 " + cells + " 个单元；过滤 " + fragments
            + " 个低于分辨率阈值的碎片。补测线仅供人工规划参考。"
  }

  /** The explanation of a new gap names the resolution to a tenth of a metre and both numbers. */
  lemma DetectionTextSays(resolution: real, result: CoverageResult)
    requires resolution >= 0.0
    ensures exists metres, cells, fragments, tenths ::
      && IsDetectionText(DetectionText(resolution, result), metres, cells, fragments)
      && IsFixed(metres, 1, tenths) && IsNearest(tenths, resolution * 10.0)
      && IsNumeral(cells) && ValueOf(cells) == result.sampleCells
      && IsNumeral(fragments) && ValueOf(fragments) == result.filteredFragments
  {
    hide IsFixed, IsNearest, IsNumeral, ValueOf, Fixed1, Decimal, Rounded;
    Fixed1ReadsBack(resolution);
    RoundedIsNearest(resolution * 10.0, Rounded(resolution * 10.0));
    DecimalReadsBack(result.sampleCells);
    DecimalReadsBack(result.filteredFragments);
    assert IsDetectionText(DetectionText(resolution, result), Fixed1(resolution), Decimal(result.sampleCells),
                           Decimal(result.filteredFragments));
  }

  ghost predicate IsPayload(text: string, source: Source, plan: string, metres: string) {
    text == source.track + "|" + plan + "|" + metres
            + "|" + FormatTime(source.startedAt) + "|" + FormatTime(source.endedAt)
  }

  /** The hashed text names the plan by its number and the swath to the nearest millimetre. */
  lemma PayloadSays(source: Source)
    requires source.swath > 0.0
    ensures exists plan, metres, thousandths ::
      && IsPayload(Payload(source), source, plan, metres)
      && IsNumeral(plan) && ValueOf(plan) == source.planId
      && IsFixed(metres, 3, thousandths) && IsNearest(thousandths, source.swath * 1000.0)
  {
    hide IsFixed, IsNearest, IsNumeral, ValueOf, Fixed3, Decimal, FormatTime, Rounded;
    var thousandths := Millimetres(source.swath);
    Fixed3ReadsBack(thousandths);
    RoundedIsNearest(source.swath * 1000.0, thousandths);
    DecimalReadsBack(source.planId);
    assert IsPayload(Payload(source), source, Decimal(source.planId), Fixed3(thousandths));
  }

  // ---------- The length of a rejection reason ----------

  predicate IsAscii(s: string) {
    forall i | 0 <= i < |s| :: s[i] as int < 128
  }

  /**
   Lengths count bytes: as many as characters exactly for ASCII texts, and three a character from U+0800 to U+FFFF,
   so that two ideographs are a reason long enough and three Latin letters are not.
   */
  lemma {:induction false} EncodedLengthIsBetween(s: string)
    ensures |s| <= EncodedLength(s) <= 4 * |s|
    ensures EncodedLength(s) == |s| <==> IsAscii(s)
    ensures (forall i | 0 <= i < |s| :: 0x800 <= s[i] as int < 0x10000) ==> EncodedLength(s) == 3 * |s|
  {
    if s != [] {
      EncodedLengthIsBetween(s[..|s| - 1]);
    }
  }
}
