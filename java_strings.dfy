/**
 * Java strings: sequences of UTF-16 code units. `length()` and `substring`
 * count code units, so a character outside the Basic Multilingual Plane takes
 * two (a surrogate pair) and a cut may fall between them.
 */
module JavaStrings {

  newtype CodeUnit = x: int | 0 <= x < 0x1_0000

  type JavaString = seq<CodeUnit>

  /** Every character of `s` is a single UTF-16 code unit. */
  predicate InBmp(s: string) {
    forall i | 0 <= i < |s| :: s[i] as int < 0x1_0000
  }

  /** The Java string of a text made of Basic Multilingual Plane characters only. */
  function Utf16(s: string): (units: JavaString)
    requires InBmp(s)
    ensures |units| == |s|
    ensures forall i | 0 <= i < |s| :: units[i] as int == s[i] as int
  {
    seq(|s|, i requires 0 <= i < |s| => s[i] as int as CodeUnit)
  }

  /** Distinct texts give distinct Java strings. */
  lemma Utf16Injective(s: string, t: string)
    requires InBmp(s) && InBmp(t) && Utf16(s) == Utf16(t)
    ensures s == t
  {
    assert |s| == |t|;
    forall i | 0 <= i < |s| ensures s[i] == t[i] {
      assert Utf16(s)[i] == Utf16(t)[i];
    }
  }
}
