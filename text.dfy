/** Characters and decimal numerals, shared by the schedule parser and by the
    model of Python's `int(str)`. Only ASCII digits and ASCII whitespace are
    modelled. */
module Text {

  predicate IsDigit(c: char) {
    '0' <= c <= '9'
  }

  /** The characters Python's `\s` matches in the ASCII range of a str pattern:
      those `str.isspace` accepts, which takes in the four separators
      U+001C..U+001F along with space, tab, line feed, vertical tab, form feed
      and carriage return. */
  predicate IsSpace(c: char) {
    c == ' ' || c == '\t' || c == '\n' || c == '\r' || c == '\U{B}' || c == '\U{C}' || '\U{1C}' <= c <= '\U{1F}'
  }

  function DigitValue(c: char): (d: nat)
    requires IsDigit(c)
    ensures d < 10
  {
    (c as int) - ('0' as int)
  }

  function DigitChar(d: nat): (c: char)
    requires d < 10
    ensures IsDigit(c) && DigitValue(c) == d
  {
    (('0' as int) + d) as char
  }

  predicate AllDigits(s: string) {
    forall i :: 0 <= i < |s| ==> IsDigit(s[i])
  }

  /** The value of a numeral, most significant digit first. */
  function DecimalValue(s: string): (v: nat)
    requires AllDigits(s)
    ensures v < Pow10(|s|)
  {
    if s == [] then 0 else DecimalValue(s[..|s| - 1]) * 10 + DigitValue(s[|s| - 1])
  }

  function Pow10(n: nat): (p: nat)
    ensures p >= 1
  {
    if n == 0 then 1 else 10 * Pow10(n - 1)
  }

  /** `width` digits of `v`, zero-padded on the left (`"%02d"`, `"%04d"`). */
  function Numeral(v: nat, width: nat): (s: string)
    requires v < Pow10(width)
    ensures |s| == width && AllDigits(s)
  {
    if width == 0 then [] else Numeral(v / 10, width - 1) + [DigitChar(v % 10)]
  }

  lemma {:induction false} NumeralValue(v: nat, width: nat)
    requires v < Pow10(width)
    ensures DecimalValue(Numeral(v, width)) == v
  {
    if width > 0 {
      var s := Numeral(v, width);
      assert s[..|s| - 1] == Numeral(v / 10, width - 1);
      NumeralValue(v / 10, width - 1);
    }
  }

  lemma DigitCharOfValue(c: char)
    requires IsDigit(c)
    ensures DigitChar(DigitValue(c)) == c
  {
  }

  /** A numeral is the zero-padded spelling of its own value. */
  lemma {:induction false} DigitsAreNumeral(s: string)
    requires AllDigits(s)
    ensures Numeral(DecimalValue(s), |s|) == s
  {
    if s != [] {
      var init, last := s[..|s| - 1], s[|s| - 1];
      var v := DecimalValue(s);
      assert AllDigits(init);
      DigitsAreNumeral(init);
      assert v / 10 == DecimalValue(init) && v % 10 == DigitValue(last);
      DigitCharOfValue(last);
      assert s == init + [last];
    }
  }
}
