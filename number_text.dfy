/** The two places where the applet moves between numbers and text: the
    volume label shows a half-step volume as JavaScript's Number.toString
    writes it, and the volume text scraped from the receiver's status is
    turned into a number by JavaScript's string-to-number coercion. */
module NumberText {
  import opened Wrappers
  import opened Volume

  predicate IsDigit(c: char) {
    '0' <= c <= '9'
  }

  predicate AllDigits(s: string) {
    forall k :: 0 <= k < |s| ==> IsDigit(s[k])
  }

  /** The characters of the regular expression class [0-9.]. */
  predicate IsDecimalChar(c: char) {
    IsDigit(c) || c == '.'
  }

  predicate AllDecimalChars(s: string) {
    forall k :: 0 <= k < |s| ==> IsDecimalChar(s[k])
  }

  /** Text of the shape -?[0-9.]+ : what the status page's volume pattern
      captures. */
  predicate IsVolumeText(s: string) {
    |s| > 0 &&
    if s[0] == '-' then |s| > 1 && AllDecimalChars(s[1..]) else AllDecimalChars(s)
  }

  function DigitChar(d: nat): (c: char)
    requires d < 10
    ensures IsDigit(c) && c as int - '0' as int == d
  {
    ('0' as int + d) as char
  }

  /** Decimal digits of a natural number, without leading zeros. */
  function NatToString(n: nat): (s: string)
    ensures |s| >= 1 && AllDigits(s)
    ensures |s| > 1 ==> s[0] != '0'
  {
    if n < 10 then [DigitChar(n)] else NatToString(n / 10) + [DigitChar(n % 10)]
  }

  /** The value of a string of decimal digits (leading zeros allowed). */
  function DigitsValue(s: string): nat
    requires AllDigits(s)
  {
    if s == [] then 0 else DigitsValue(s[..|s| - 1]) * 10 + (s[|s| - 1] as int - '0' as int)
  }

  lemma {:induction false} DigitsRoundTrip(n: nat)
    ensures DigitsValue(NatToString(n)) == n
  {
    if n >= 10 {
      var s := NatToString(n);
      assert s[..|s| - 1] == NatToString(n / 10);
      DigitsRoundTrip(n / 10);
    }
  }

  function Pow10(k: nat): (p: nat)
    ensures p >= 1
  {
    if k == 0 then 1 else 10 * Pow10(k - 1)
  }

  /** Position of the first occurrence of c in s. */
  function IndexOf(s: string, c: char): (i: nat)
    requires c in s
    ensures i < |s| && s[i] == c
    ensures forall k :: 0 <= k < i ==> s[k] != c
  {
    if s[0] == c then 0 else 1 + IndexOf(s[1..], c)
  }

  predicate HasDigit(s: string) {
    exists k :: 0 <= k < |s| && IsDigit(s[k])
  }

  predicate AtMostOneDot(s: string) {
    forall i, j :: 0 <= i < j < |s| && s[i] == '.' ==> s[j] != '.'
  }

  /** The number written as digits, a dot and digits. */
  function DecimalValue(whole: string, fraction: string): real
    requires AllDigits(whole) && AllDigits(fraction)
  {
    DigitsValue(whole) as real + DigitsValue(fraction) as real / Pow10(|fraction|) as real
  }

  /** Number() on an unsigned string of digits and dots: digits with at
      most one decimal point and at least one digit give a number
      (`12`, `12.`, `.5`, `12.50`); anything else gives NaN, here None. */

  function ParseUnsigned(t: string): (r: Option<real>)
    requires AllDecimalChars(t)
    ensures r.Some? ==> r.value >= 0.0
  {
    if '.' in t then
      var d := IndexOf(t, '.');
      var whole, fraction := t[..d], t[d + 1..];
      if '.' in fraction || (whole == [] && fraction == []) then None
      else
        assert AllDigits(whole) && AllDigits(fraction);
        Some(DecimalValue(whole, fraction))
    else if t == [] then None
    else
      assert AllDigits(t);
      Some(DigitsValue(t) as real)
  }

  /** The text is a number exactly when it has a digit and at most one
      decimal point. */
  lemma ParseUnsignedDefined(t: string)
    requires AllDecimalChars(t)
    ensures ParseUnsigned(t).Some? <==> HasDigit(t) && AtMostOneDot(t)
  {
    if '.' in t {
      var d := IndexOf(t, '.');
      var whole, fraction := t[..d], t[d + 1..];
      if '.' in fraction {
        var e := IndexOf(fraction, '.');
        assert t[d] == '.' && t[d + 1 + e] == fraction[e] == '.';
        assert !AtMostOneDot(t);
      } else if whole == [] && fraction == [] {
        assert |t| == 1 && t[0] == '.';
        assert !HasDigit(t);
      } else {
        OneDotAt(t, d);
        if whole != [] {
          assert IsDigit(t[0]) by { assert t[0] == whole[0]; }
        } else {
          assert IsDigit(t[d + 1]) by { assert t[d + 1] == fraction[0]; }
        }
      }
    } else if t != [] {
      assert IsDigit(t[0]);
      assert AtMostOneDot(t);
    }
  }

  /** A text whose first dot is at d and that has no dot after it has at
      most one dot. */
  lemma OneDotAt(t: string, d: nat)
    requires d < |t| && t[d] == '.'
    requires forall k :: 0 <= k < d ==> t[k] != '.'
    requires '.' !in t[d + 1..]
    ensures AtMostOneDot(t)
  {
    forall k | d < k < |t| ensures t[k] != '.' {
      assert t[k] == t[d + 1..][k - d - 1];
    }
  }

  /** Digits written after other digits shift those left by their count. */
  lemma {:induction false} DigitsAppend(w: string, f: string)
    requires AllDigits(w) && AllDigits(f)
    ensures AllDigits(w + f)
    ensures DigitsValue(w + f) == DigitsValue(w) * Pow10(|f|) + DigitsValue(f)
    decreases |f|
  {
    var wf := w + f;
    forall k | 0 <= k < |wf| ensures IsDigit(wf[k]) {
      if k < |w| { assert wf[k] == w[k]; } else { assert wf[k] == f[k - |w|]; }
    }
    if f == [] {
      assert wf == w;
    } else {
      var g, d := f[..|f| - 1], f[|f| - 1] as int - '0' as int;
      DigitsAppend(w, g);
      assert wf[..|wf| - 1] == w + g && wf[|wf| - 1] == f[|f| - 1];
      var a, b, p := DigitsValue(w), DigitsValue(g), Pow10(|g|);
      assert DigitsValue(wf) == (a * p + b) * 10 + d;
      assert DigitsValue(f) == b * 10 + d && Pow10(|f|) == 10 * p;
      ShiftByTen(a, p);
    }
  }

  /** One more place shifts a number ten times further. */
  lemma ShiftByTen(a: nat, p: nat)
    ensures a * (10 * p) == (a * p) * 10
  {
  }

  /** Digits, a dot and digits: the dot is the first one, the text has no
      other, and the two sides are the digits given. */
  lemma DotSplit(w: string, f: string)
    requires AllDigits(w) && AllDigits(f)
    ensures AllDecimalChars(w + "." + f) && '.' in w + "." + f
    ensures IndexOf(w + "." + f, '.') == |w|
    ensures (w + "." + f)[..|w|] == w && (w + "." + f)[|w| + 1..] == f && '.' !in f
  {
    DotSplitChars(w, f);
    FirstDotAfterDigits(w, f);
    NoDotInDigits(f);
    var t := w + "." + f;
    assert t[..|w|] == w && t[|w| + 1..] == f;
  }

  /** Digits, a dot and digits are all characters of [0-9.]. */
  lemma DotSplitChars(w: string, f: string)
    requires AllDigits(w) && AllDigits(f)
    ensures AllDecimalChars(w + "." + f)
  {
    var t := w + "." + f;
    forall k | 0 <= k < |t| ensures IsDecimalChar(t[k]) {
      if k < |w| { assert t[k] == w[k]; }
      else if k > |w| { assert t[k] == f[k - |w| - 1]; }
    }
  }

  /** The first dot after a run of digits is the one that ends it. */
  lemma FirstDotAfterDigits(w: string, f: string)
    requires AllDigits(w)
    ensures '.' in w + "." + f && IndexOf(w + "." + f, '.') == |w|
  {
    var t := w + "." + f;
    assert t[|w|] == '.';
    forall k | 0 <= k < |w| ensures t[k] != '.' {
      assert t[k] == w[k];
    }
  }

  /** A digit string has no dot. */
  lemma NoDotInDigits(f: string)
    requires AllDigits(f)
    ensures '.' !in f
  {
    forall k | 0 <= k < |f| ensures f[k] != '.' {
      assert IsDigit(f[k]);
    }
  }

  /** Unsigned text with one dot reads as the digits before it plus the
      digits after it over a power of ten. */
  lemma ParseUnsignedValue(w: string, f: string)
    requires AllDigits(w) && AllDigits(f) && |w| + |f| > 0
    ensures AllDecimalChars(w + "." + f)
    ensures ParseUnsigned(w + "." + f) == Some(DecimalValue(w, f))
  {
    DotSplit(w, f);
  }

  /** That value is the digits read together, divided by ten to the number
      of digits after the dot. */
  lemma DecimalValueScaled(w: string, f: string)
    requires AllDigits(w) && AllDigits(f)
    ensures AllDigits(w + f)
    ensures DecimalValue(w, f) == DigitsValue(w + f) as real / Pow10(|f|) as real
  {
    DigitsAppend(w, f);
    ScaleBack(DigitsValue(w), DigitsValue(f), Pow10(|f|));
  }

  /** A whole part plus a fraction over p is the number read together
      over p. */
  lemma ScaleBack(a: nat, b: nat, p: nat)
    requires p >= 1
    ensures a as real + b as real / p as real == (a * p + b) as real / p as real
  {
    assert (a * p) as real == a as real * p as real;
  }

  /** The volume text the receiver reports for a whole volume, such as
      "-33.0", coerces to the volume it writes. */
  lemma ReceiverWholeVolumeText()
    ensures ParseDecimal("-33.0") == Some(-33.0)
  {
  }

  /** The volume text the receiver reports for a half-step, such as
      "-32.5", coerces to the volume it writes. */
  lemma ReceiverHalfVolumeText()
    ensures ParseDecimal("-32.5") == Some(-32.5)
  {
  }

  /** A minus sign, digits, a dot and digits coerce to the negated value of
      the unsigned part. */
  lemma NegativeDecimal(w: string, f: string)
    requires AllDigits(w) && AllDigits(f) && |w| + |f| > 0
    ensures IsVolumeText("-" + (w + "." + f))
    ensures ParseDecimal("-" + (w + "." + f)) == Some(-DecimalValue(w, f))
  {
    ParseUnsignedValue(w, f);
    NegatedText(w + "." + f, DecimalValue(w, f));
  }

  /** JavaScript's coercion of the scraped volume text to a number: an
      optional minus sign in front of the unsigned form. None stands for
      NaN. */
  function ParseDecimal(s: string): (r: Option<real>)
    requires IsVolumeText(s)
    ensures r.Some? <==> (if s[0] == '-' then HasDigit(s[1..]) && AtMostOneDot(s[1..]) else HasDigit(s) && AtMostOneDot(s))
    ensures r.Some? && s[0] == '-' ==> r.value <= 0.0
    ensures r.Some? && s[0] != '-' ==> r.value >= 0.0
  {
    if s[0] == '-' then
      ParseUnsignedDefined(s[1..]);
      match ParseUnsigned(s[1..])
      case Some(x) => Some(-x)
      case None => None
    else
      ParseUnsignedDefined(s);
      ParseUnsigned(s)
  }

  /** Number.toString of a half-step volume: the sign, the whole part, and
      ".5" when there is a half. */
  function FormatHalfStep(v: real): (s: string)
    requires IsHalfStep(v)
    ensures IsVolumeText(s)
    ensures s[0] == '-' <==> v < 0.0
  {
    var n := (2.0 * v).Floor;
    var text := MagnitudeText(if n < 0 then -n else n);
    if n < 0 then
      assert ("-" + text)[1..] == text;
      "-" + text
    else
      text
  }

  /** The digits of a magnitude given in halves: the whole part, then ".5"
      when there is a half left over. */
  function MagnitudeText(m: nat): (text: string)
    ensures |text| > 0 && AllDecimalChars(text) && text[0] != '-'
  {
    var digits := NatToString(m / 2);
    var text := digits + (if m % 2 == 1 then ".5" else "");
    assert AllDecimalChars(text) by {
      forall k | 0 <= k < |text| ensures IsDecimalChar(text[k]) {
        if k < |digits| { assert text[k] == digits[k]; }
      }
    }
    assert text[0] == digits[0];
    text
  }

  /** The unsigned part of a formatted half-step parses back to its value. */
  lemma UnsignedRoundTrip(q: nat, half: bool)
    ensures AllDecimalChars(NatToString(q) + (if half then ".5" else ""))
    ensures ParseUnsigned(NatToString(q) + (if half then ".5" else ""))
         == Some(q as real + (if half then 0.5 else 0.0))
  {
    if half {
      WholeAndHalfRoundTrip(q);
    } else {
      assert NatToString(q) + "" == NatToString(q);
      WholeRoundTrip(q);
    }
  }

  lemma WholeRoundTrip(q: nat)
    ensures AllDecimalChars(NatToString(q))
    ensures ParseUnsigned(NatToString(q)) == Some(q as real)
  {
    var digits := NatToString(q);
    DigitsRoundTrip(q);
    assert '.' !in digits by {
      forall k | 0 <= k < |digits| ensures digits[k] != '.' { assert IsDigit(digits[k]); }
    }
  }

  lemma WholeAndHalfRoundTrip(q: nat)
    ensures AllDecimalChars(NatToString(q) + ".5")
    ensures ParseUnsigned(NatToString(q) + ".5") == Some(q as real + 0.5)
  {
    DigitsRoundTrip(q);
    HalfText(NatToString(q));
  }

  /** Digits followed by ".5" coerce to their value plus a half. */
  lemma HalfText(w: string)
    requires AllDigits(w)
    ensures AllDecimalChars(w + ".5")
    ensures ParseUnsigned(w + ".5") == Some(DigitsValue(w) as real + 0.5)
  {
    ParseUnsignedValue(w, "5");
    assert w + "." + "5" == w + ".5";
    HalfDecimal(w);
  }

  /** Digits followed by ".5" stand for their value plus a half. */
  lemma HalfDecimal(w: string)
    requires AllDigits(w)
    ensures AllDigits("5") && DecimalValue(w, "5") == DigitsValue(w) as real + 0.5
  {
    assert DigitsValue("5") == 5 by {
      assert "5"[..0] == [];
    }
    assert Pow10(1) == 10;
  }

  /** The label text reads back as the volume it shows: coercing it to a
      number gives the half-step it was written from. */
  lemma FormatParseRoundTrip(v: real)
    requires IsHalfStep(v)
    ensures ParseDecimal(FormatHalfStep(v)) == Some(v)
  {
    var n := (2.0 * v).Floor;
    var m: nat := if n < 0 then -n else n;
    var q, half := m / 2, m % 2 == 1;
    var u := q as real + (if half then 0.5 else 0.0);
    UnsignedRoundTrip(q, half);
    HalfStepParts(v, n, m);
    FormatHalfStepParts(v, n, m);
    SignedText(FormatHalfStep(v), MagnitudeText(m), n < 0, u, v);
  }

  /** toString of a half-step is its sign, then the text of its magnitude
      in halves. */
  lemma FormatHalfStepParts(v: real, n: int, m: nat)
    requires IsHalfStep(v) && n == (2.0 * v).Floor && m == if n < 0 then -n else n
    ensures FormatHalfStep(v) == if n < 0 then "-" + MagnitudeText(m) else MagnitudeText(m)
  {
  }

  /** A half-step is its sign applied to half the magnitude of its double,
      split into whole and half. */
  lemma HalfStepParts(v: real, n: int, m: nat)
    requires IsHalfStep(v) && n == (2.0 * v).Floor && m == if n < 0 then -n else n
    ensures v == if n < 0 then -((m / 2) as real + (if m % 2 == 1 then 0.5 else 0.0))
                 else (m / 2) as real + (if m % 2 == 1 then 0.5 else 0.0)
  {
    assert m == 2 * (m / 2) + (if m % 2 == 1 then 1 else 0);
    assert n as real == 2.0 * v;
  }

  /** Unsigned text reads the same after the volume pattern's optional
      minus sign is applied: none keeps the value, one negates it. */
  lemma SignedText(s: string, text: string, negative: bool, x: real, v: real)
    requires |text| > 0 && AllDecimalChars(text) && ParseUnsigned(text) == Some(x)
    requires s == (if negative then "-" + text else text) && v == (if negative then -x else x)
    ensures IsVolumeText(s) && ParseDecimal(s) == Some(v)
  {
    if negative {
      NegatedText(text, x);
    } else {
      assert IsDecimalChar(text[0]);
    }
  }

  /** A minus sign in front of unsigned text negates its value. */
  lemma NegatedText(text: string, x: real)
    requires |text| > 0 && AllDecimalChars(text) && ParseUnsigned(text) == Some(x)
    ensures IsVolumeText("-" + text) && ParseDecimal("-" + text) == Some(-x)
  {
    assert ("-" + text)[0] == '-' && ("-" + text)[1..] == text;
  }
}
