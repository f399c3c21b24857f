/**
 * Python's `float(text)` for the plain decimal forms ffmpeg prints:
 * surrounding whitespace, an optional sign, digits, an optional '.'
 * and more digits, with at least one digit in all.
 */
module Numbers {
  import opened Wrappers
  import opened Text

  predicate IsDigit(c: char)
  {
    '0' <= c <= '9'
  }

  predicate AllDigits(s: string)
  {
    forall k :: 0 <= k < |s| ==> IsDigit(s[k])
  }

  /** The value of a run of decimal digits (0 for the empty run). */
  function DigitsValue(s: string): nat
    requires AllDigits(s)
  {
    if |s| == 0 then 0
    else 10 * DigitsValue(s[..|s| - 1]) + (s[|s| - 1] as int - '0' as int)
  }

  function Pow10(k: nat): (p: nat)
    ensures p >= 1
  {
    if k == 0 then 1 else 10 * Pow10(k - 1)
  }

  /** The value of the plain decimal `w.f`. */
  function DecimalValue(w: string, f: string): real
    requires AllDigits(w) && AllDigits(f)
  {
    DigitsValue(w) as real + DigitsValue(f) as real / Pow10(|f|) as real
  }

  /** Digits with an optional fractional part: `12`, `12.5`, `12.`, `.5`. */
  function ParseUnsigned(s: string): Option<real>
  {
    match IndexOf(s, ".")
    case None =>
      if |s| > 0 && AllDigits(s) then Some(DigitsValue(s) as real) else None
    case Some(i) =>
      var whole, frac := s[..i], s[i + 1..];
      if |whole| + |frac| > 0 && AllDigits(whole) && AllDigits(frac) then
        Some(DecimalValue(whole, frac))
      else None
  }

  /** Python's `float(s)` restricted to plain decimal notation. */
  function ParseFloat(s: string): Option<real>
  {
    var t := Strip(s);
    if |t| > 0 && t[0] == '-' then
      match ParseUnsigned(t[1..])
      case Some(v) => Some(-v)
      case None => None
    else if |t| > 0 && t[0] == '+' then ParseUnsigned(t[1..])
    else ParseUnsigned(t)
  }

  /** Text that is already stripped and starts with a digit is parsed unsigned. */
  lemma ParseUnpadded(t: string)
    requires |t| > 0 && IsDigit(t[0]) && !IsSpace(t[|t| - 1])
    ensures ParseFloat(t) == ParseUnsigned(t)
  {
    StripPadded("", t, "");
    assert "" + t + "" == t;
  }

  /** A run of digits reads back as its value. */
  lemma ParseWhole(w: string)
    requires |w| > 0 && AllDigits(w)
    ensures ParseFloat(w) == Some(DigitsValue(w) as real)
  {
    ParseUnpadded(w);
    NoPoint(w);
  }

  /** Digits, a point and digits read back as whole part plus fraction. */
  lemma ParseFraction(w: string, f: string)
    requires |w| > 0 && AllDigits(w) && AllDigits(f)
    ensures ParseFloat(w + "." + f)
         == Some(DecimalValue(w, f))
  {
    var s := w + "." + f;
    assert s[0] == w[0];
    assert !IsSpace(s[|s| - 1]) by {
      if |f| > 0 { assert s[|s| - 1] == f[|f| - 1]; }
    }
    ParseUnpadded(s);
    UnsignedFraction(w, f);
  }

  lemma UnsignedFraction(w: string, f: string)
    requires |w| > 0 && AllDigits(w) && AllDigits(f)
    ensures ParseUnsigned(w + "." + f)
         == Some(DecimalValue(w, f))
  {
    var s := w + "." + f;
    PointAt(w, f);
    var whole, frac := s[..|w|], s[|w| + 1..];
    assert whole == w;
    assert frac == f;
    assert ParseUnsigned(s) == Some(DecimalValue(whole, frac));
  }

  lemma NoPoint(w: string)
    requires AllDigits(w)
    ensures IndexOf(w, ".").None?
  {
  }

  lemma PointAt(w: string, f: string)
    requires AllDigits(w)
    ensures IndexOf(w + "." + f, ".") == Some(|w|)
  {
    var s := w + "." + f;
    assert s[|w|..|w| + 1] == ".";
    assert OccursAt(s, ".", |w|);
  }
}
