/**
 * Display helpers of the product pages: weekday names for a product's
 * availability schedule, and Arabic-Indic rendering of numbers.
 */
module Locale {
  import opened Text

  /** Sunday first, as the schedule's day numbers 1..7 count them. */
  const WeekdayNames: seq<string> := ["الأحد", "الإثنين", "الثلاثاء", "الأربعاء", "الخميس", "الجمعة", "السبت"]

  /** `days[dayNumber - 1] || ""`: the name of day 1..7, and the empty string for any other number. */
  function DayName(day: int): (name: string)
    ensures name != "" <==> 1 <= day <= 7
    ensures 1 <= day <= 7 ==> name in WeekdayNames
  {
    if 1 <= day <= |WeekdayNames| then WeekdayNames[day - 1] else ""
  }

  /** Two different valid day numbers never share a name. */
  lemma DayNamesDistinct(d1: int, d2: int)
    requires 1 <= d1 <= 7 && 1 <= d2 <= 7 && d1 != d2
    ensures DayName(d1) != DayName(d2)
  {
    var names := WeekdayNames;
    assert names[0][..2] == names[1][..2] == "ال";
    assert |names[0]| == 5 && |names[1]| == 7 && |names[2]| == 8 && |names[3]| == 8;
    assert |names[4]| == 6 && |names[5]| == 6 && |names[6]| == 5;
    assert names[0][2] != names[6][2];
    assert names[2][2] != names[3][2];
    assert names[4][2] != names[5][2];
  }

  const ArabicIndicDigits: seq<char> := ['٠', '١', '٢', '٣', '٤', '٥', '٦', '٧', '٨', '٩']

  predicate IsArabicIndicDigit(c: char) {
    c in ArabicIndicDigits
  }

  /** One character of `replace(/\d/g, digit => arabicNumbers[digit])`. */
  function ToArabicDigit(c: char): char {
    if IsAsciiDigit(c) then ArabicIndicDigits[c as int - '0' as int] else c
  }

  /**
   * `toArabicNumbers` on the number's decimal text: every ASCII digit is
   * replaced by the Arabic-Indic digit of the same value, every other
   * character is kept.
   */
  function ToArabicNumbers(text: string): (r: string)
    ensures |r| == |text|
    ensures forall i :: 0 <= i < |r| ==> !IsAsciiDigit(r[i])
    ensures forall i :: 0 <= i < |r| && IsAsciiDigit(text[i]) ==> IsArabicIndicDigit(r[i])
    ensures forall i :: 0 <= i < |r| && !IsAsciiDigit(text[i]) ==> r[i] == text[i]
  {
    seq(|text|, i requires 0 <= i < |text| => ToArabicDigit(text[i]))
  }

  /** The reverse reading: an Arabic-Indic digit back to its ASCII digit. */
  function FromArabicDigit(c: char): char {
    if IsArabicIndicDigit(c) then (c as int - '٠' as int + '0' as int) as char else c
  }

  function FromArabicNumbers(text: string): (r: string)
    ensures |r| == |text|
  {
    seq(|text|, i requires 0 <= i < |text| => FromArabicDigit(text[i]))
  }

  lemma DigitRoundTrip(c: char)
    requires !IsArabicIndicDigit(c)
    ensures FromArabicDigit(ToArabicDigit(c)) == c
  {
    if IsAsciiDigit(c) {
      var d := c as int - '0' as int;
      assert ArabicIndicDigits[d] as int == '٠' as int + d;
    }
  }

  /** Text that holds no Arabic-Indic digit is recovered from its rendering. */
  lemma {:induction false} ArabicNumbersRoundTrip(text: string)
    requires forall i :: 0 <= i < |text| ==> !IsArabicIndicDigit(text[i])
    ensures FromArabicNumbers(ToArabicNumbers(text)) == text
  {
    var r := FromArabicNumbers(ToArabicNumbers(text));
    forall i | 0 <= i < |text| ensures r[i] == text[i] {
      DigitRoundTrip(text[i]);
    }
  }
}
