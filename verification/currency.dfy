/** `parseCurrencyBR`: the amount typed in a currency field is read by keeping
    its digits only, reading them as a whole number of cents and dividing by
    100. Text without digits, the empty text included, reads as zero. */
module Currency {
  import opened Text

  /** The whole number of cents the digits of `text` spell. */
  function ParseCents(text: string): (cents: nat)
    ensures text == [] ==> cents == 0
    ensures NoDigits(text) ==> cents == 0
  {
    if text == [] then 0
    else
      var digits := DigitsOf(text);
      DigitsOfExtremes(text);
      if digits == [] then 0 else DigitsValue(digits)
  }

  /** `parseCurrencyBR(text)`. */
  function ParseCurrencyBR(text: string): (r: real)
    ensures r >= 0.0
    ensures r == ParseCents(text) as real / 100.0
    ensures NoDigits(text) ==> r == 0.0
  {
    ParseCents(text) as real / 100.0
  }

  /** The cents read from a text are the number its digits spell, whatever surrounds them. */
  lemma ParseCentsIsDigitsValue(text: string)
    ensures ParseCents(text) == DigitsValue(DigitsOf(text))
  {
  }

  /** Inserting text without digits anywhere ("R$", ".", ",", spaces) never
      changes the amount. */
  lemma ParseIgnoresNonDigits(a: string, junk: string, b: string)
    requires NoDigits(junk)
    ensures ParseCurrencyBR(a + junk + b) == ParseCurrencyBR(a + b)
  {
    DigitsOfConcat(a + junk, b);
    DigitsOfConcat(a, junk);
    DigitsOfConcat(a, b);
    DigitsOfExtremes(junk);
    assert DigitsOf(a) + [] == DigitsOf(a);
    ParseCentsIsDigitsValue(a + junk + b);
    ParseCentsIsDigitsValue(a + b);
  }

  /** A number of cents written out, with any decoration without digits
      around it ("R$ " before, nothing or a label after), reads back as that
      many cents. */
  lemma ParseReadsWrittenCents(prefix: string, n: nat, suffix: string)
    requires NoDigits(prefix) && NoDigits(suffix)
    ensures ParseCurrencyBR(prefix + NatToString(n) + suffix) == n as real / 100.0
  {
    var w := NatToString(n);
    var text := prefix + w + suffix;
    DigitsOfConcat(prefix + w, suffix);
    DigitsOfConcat(prefix, w);
    DigitsOfExtremes(prefix);
    DigitsOfExtremes(suffix);
    DigitsOfExtremes(w);
    calc {
      DigitsOf(text);
      DigitsOf(prefix + w) + DigitsOf(suffix);
      DigitsOf(prefix) + DigitsOf(w) + DigitsOf(suffix);
      [] + w + [];
      w;
    }
    ParseCentsIsDigitsValue(text);
  }
}
