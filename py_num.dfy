/** Python's `int(text)` and `float(text)` on decimal text, as partial
    functions: `None` stands for the ValueError Python raises. Values are
    exact (`int`, `real`); the rounding of a Python float to the nearest
    IEEE double is not modelled. */
module PyNum {
  import opened Wrappers
  import opened PyStr

  predicate IsDigit(c: char) {
    '0' <= c <= '9'
  }

  predicate AllDigits(s: string) {
    forall j :: 0 <= j < |s| ==> IsDigit(s[j])
  }

  function DigitChar(d: nat): char
    requires d < 10
  {
    ('0' as int + d) as char
  }

  /** The value of a string of decimal digits, most significant first. */
  function DigitsValue(s: string): nat
    requires AllDigits(s)
    decreases |s|
  {
    if |s| == 0 then 0 else DigitsValue(s[..|s| - 1]) * 10 + (s[|s| - 1] as int - '0' as int)
  }

  /** `str(n)` for a natural number. */
  function NatText(n: nat): (s: string)
    ensures |s| > 0 && AllDigits(s)
    decreases n
  {
    if n < 10 then [DigitChar(n)] else NatText(n / 10) + [DigitChar(n % 10)]
  }

  /** `str(i)` for any integer. */
  function IntText(i: int): string
  {
    if i < 0 then "-" + NatText(-i) else NatText(i)
  }

  function Pow10(n: nat): (r: real)
    ensures r >= 1.0
  {
    if n == 0 then 1.0 else 10.0 * Pow10(n - 1)
  }

  /** Multiplication by ten to the power `e`, which may be negative. */
  function Scale(e: int): real
  {
    if e >= 0 then Pow10(e) else 1.0 / Pow10(-e)
  }

  /** The index of the first character of `s` that is in `cs`. */
  function IndexOfAny(s: string, cs: set<char>): (r: Option<nat>)
    ensures r.Some? ==> r.value < |s|
    decreases |s|
  {
    if |s| == 0 then None
    else if s[0] in cs then Some(0)
    else match IndexOfAny(s[1..], cs)
      case None => None
      case Some(i) => Some(i + 1)
  }

  /** `IndexOfAny` finds the first character in `cs`, and finds one whenever
      there is one. */
  lemma {:induction false} IndexOfAnyFirst(s: string, cs: set<char>)
    ensures IndexOfAny(s, cs).Some? ==> s[IndexOfAny(s, cs).value] in cs
    ensures IndexOfAny(s, cs).Some? ==> forall j :: 0 <= j < IndexOfAny(s, cs).value ==> s[j] !in cs
    ensures IndexOfAny(s, cs).None? <==> forall j :: 0 <= j < |s| ==> s[j] !in cs
    decreases |s|
  {
    if |s| > 0 && s[0] !in cs {
      IndexOfAnyFirst(s[1..], cs);
      var r := IndexOfAny(s[1..], cs);
      if r.None? {
        forall j | 0 <= j < |s| ensures s[j] !in cs {
          if j > 0 { assert s[j] == s[1..][j - 1]; }
        }
      } else {
        forall j | 0 <= j < r.value + 1 ensures s[j] !in cs {
          if j > 0 { assert s[j] == s[1..][j - 1]; }
        }
      }
    }
  }

  /** Text after an optional leading sign, and whether that sign was `-`. */
  function Unsigned(t: string): (bool, string)
  {
    if |t| > 0 && (t[0] == '+' || t[0] == '-') then (t[0] == '-', t[1..]) else (false, t)
  }

  /** `int(s)` in base 10: surrounding whitespace, an optional sign, then one
      or more decimal digits. */
  function ParseInt(s: string): Option<int>
  {
    var (neg, ds) := Unsigned(Strip(s));
    if |ds| > 0 && AllDigits(ds) then
      Some(if neg then -(DigitsValue(ds) as int) else DigitsValue(ds))
    else None
  }

  /** The exponent after `e`/`E`: an optional sign and one or more digits. */
  function ParseExponent(t: string): Option<int>
  {
    var (neg, ds) := Unsigned(t);
    if |ds| > 0 && AllDigits(ds) then
      Some(if neg then -(DigitsValue(ds) as int) else DigitsValue(ds))
    else None
  }

  /** `float(s)` on decimal text: surrounding whitespace, an optional sign,
      digits with at most one `.` (at least one digit in all), and an
      optional exponent. */
  function ParseFloat(s: string): Option<real>
  {
    var (neg, u) := Unsigned(Strip(s));
    var (mantissa, exponent) :=
      match IndexOfAny(u, {'e', 'E'})
      case None => (u, None)
      case Some(i) => (u[..i], Some(u[i + 1..]));
    var (whole, frac) :=
      match IndexOfAny(mantissa, {'.'})
      case None => (mantissa, "")
      case Some(i) => (mantissa[..i], mantissa[i + 1..]);
    if !(AllDigits(whole) && AllDigits(frac) && |whole| + |frac| > 0) then None
    else
      var e :- match exponent case None => Some(0) case Some(t) => ParseExponent(t);
      var v := (DigitsValue(whole) as real + DigitsValue(frac) as real / Pow10(|frac|)) * Scale(e);
      Some(if neg then -v else v)
  }

  /** A non-negative decimal written with a point: whole part and the digits
      after the point, as `'{:.4f}'.format(x)` writes it. */
  datatype Fixed = Fixed(whole: nat, frac: string)

  predicate ValidFixed(d: Fixed) {
    AllDigits(d.frac)
  }

  function FixedText(d: Fixed): string
  {
    NatText(d.whole) + "." + d.frac
  }

  function FixedValue(d: Fixed): real
    requires ValidFixed(d)
  {
    d.whole as real + DigitsValue(d.frac) as real / Pow10(|d.frac|)
  }

  // ---------------------------------------------------------------------

  /** Reading back what `str` writes gives the number. */
  lemma {:induction false} NatTextValue(n: nat)
    ensures DigitsValue(NatText(n)) == n
    decreases n
  {
    if n >= 10 {
      NatTextValue(n / 10);
      var s := NatText(n);
      assert s[..|s| - 1] == NatText(n / 10);
    }
  }

  lemma DigitsNotSpace(s: string)
    requires |s| > 0 && AllDigits(s)
    ensures !IsSpace(s[0]) && !IsSpace(s[|s| - 1])
  {
  }

  /** `int()` reads back `str(i)` for every integer, whatever whitespace
      surrounds it (a trailing newline included). */
  lemma ParseIntText(w1: string, i: int, w2: string)
    requires AllSpace(w1) && AllSpace(w2)
    ensures ParseInt(w1 + IntText(i) + w2) == Some(i)
  {
    var t := IntText(i);
    var n := if i < 0 then -i else i;
    NatTextValue(n);
    DigitsNotSpace(NatText(n));
    assert t[|t| - 1] == NatText(n)[|NatText(n)| - 1];
    StripPadded(w1, t, w2);
    if i < 0 {
      assert t[1..] == NatText(n);
    } else {
      assert IsDigit(t[0]);
    }
  }

  /** The characters of a decimal's text are digits and one point. */
  lemma FixedTextChars(d: Fixed)
    requires ValidFixed(d)
    ensures forall j :: 0 <= j < |FixedText(d)| ==> IsDigit(FixedText(d)[j]) || FixedText(d)[j] == '.'
  {
    var w := NatText(d.whole);
    forall j | 0 <= j < |FixedText(d)|
      ensures IsDigit(FixedText(d)[j]) || FixedText(d)[j] == '.'
    {
      if j < |w| {
        assert FixedText(d)[j] == w[j];
      } else if j > |w| {
        assert FixedText(d)[j] == d.frac[j - |w| - 1];
      }
    }
  }

  /** The first hit of `IndexOfAny` in `s` is its first hit in `s + u`;
      with no hit in either, there is none in `s + u`. */
  lemma {:induction false} IndexOfAnyAppend(s: string, u: string, cs: set<char>)
    ensures IndexOfAny(s, cs).Some? ==> IndexOfAny(s + u, cs) == IndexOfAny(s, cs)
    ensures IndexOfAny(s, cs).None? && IndexOfAny(u, cs).None? ==> IndexOfAny(s + u, cs).None?
    decreases |s|
  {
    if |s| > 0 {
      assert (s + u)[0] == s[0];
      assert (s + u)[1..] == s[1..] + u;
      IndexOfAnyAppend(s[1..], u, cs);
    } else {
      assert s + u == u;
    }
  }

  /** `int()` refuses `str(i)` followed by a character that is neither a
      digit nor whitespace, whatever whitespace comes after it. */
  lemma ParseIntTrailing(i: int, c: char, w: string)
    requires !IsDigit(c) && !IsSpace(c) && AllSpace(w)
    ensures ParseInt(IntText(i) + [c] + w) == None
  {
    var t := IntText(i);
    var n := if i < 0 then -i else i;
    var u := t + [c];
    DigitsNotSpace(NatText(n));
    assert u[0] == t[0];
    StripPadded("", u, w);
    assert "" + u + w == t + [c] + w;
    var (neg, ds) := Unsigned(u);
    assert ds[|ds| - 1] == c;
  }

  /** `float()` of text that strips to `t`: unsigned, no exponent, a point
      at `i`, digits on both sides. */
  lemma ParseFloatDecimal(s: string, t: string, i: nat)
    requires Strip(s) == t && Unsigned(t) == (false, t)
    requires IndexOfAny(t, {'e', 'E'}).None? && IndexOfAny(t, {'.'}) == Some(i)
    requires 0 < i && AllDigits(t[..i]) && AllDigits(t[i + 1..])
    ensures ParseFloat(s) == Some(DigitsValue(t[..i]) as real + DigitsValue(t[i + 1..]) as real / Pow10(|t[i + 1..]|))
  {
  }

  /** `float()` raises on text that strips to `t` when what follows its
      first point is not all digits. */
  lemma ParseFloatBadFraction(s: string, t: string, i: nat)
    requires Strip(s) == t && Unsigned(t) == (false, t)
    requires IndexOfAny(t, {'e', 'E'}).None? && IndexOfAny(t, {'.'}) == Some(i)
    requires !AllDigits(t[i + 1..])
    ensures ParseFloat(s) == None
  {
  }

  /** Where the point of a decimal's text is, and what surrounds it. */
  lemma FixedTextShape(d: Fixed)
    requires ValidFixed(d)
    ensures var t, n := FixedText(d), NatText(d.whole);
      && |t| > |n| > 0 && IsDigit(t[0]) && !IsSpace(t[0]) && !IsSpace(t[|t| - 1])
      && IndexOfAny(t, {'e', 'E'}).None? && IndexOfAny(t, {'.'}) == Some(|n|)
      && t[..|n|] == n && t[|n| + 1..] == d.frac
  {
    var t, n := FixedText(d), NatText(d.whole);
    FixedTextChars(d);
    assert t[0] == n[0];
    IndexOfAnyFirst(t, {'e', 'E'});
    IndexOfAnyFirst(t, {'.'});
    assert t[|n|] in {'.'};
    var p := IndexOfAny(t, {'.'});
    assert p.Some? && p.value <= |n|;
    assert t[p.value] == '.';
    assert t[..|n|] == n;
  }

  /** `float()` reads back the text of a decimal, whatever whitespace
      surrounds it. */
  lemma ParseFloatFixed(w1: string, d: Fixed, w2: string)
    requires ValidFixed(d) && AllSpace(w1) && AllSpace(w2)
    ensures ParseFloat(w1 + FixedText(d) + w2) == Some(FixedValue(d))
  {
    var t, n := FixedText(d), NatText(d.whole);
    FixedTextShape(d);
    StripPadded(w1, t, w2);
    assert Unsigned(t) == (false, t);
    NatTextValue(d.whole);
    ParseFloatDecimal(w1 + t + w2, t, |n|);
  }

  /** `float()` refuses a decimal followed by a character that is neither a
      digit, a point, an exponent mark nor whitespace (a closing bracket, a
      file separator), whatever whitespace comes after it. */
  lemma ParseFloatTrailing(d: Fixed, c: char, w: string)
    requires ValidFixed(d) && AllSpace(w)
    requires !IsDigit(c) && !IsSpace(c) && c != '.' && c != 'e' && c != 'E'
    ensures ParseFloat(FixedText(d) + [c] + w) == None
  {
    var t, n := FixedText(d), NatText(d.whole);
    var u := t + [c];
    FixedTextShape(d);
    assert u[0] == t[0];
    StripPadded("", u, w);
    assert "" + u + w == t + [c] + w;
    assert Unsigned(u) == (false, u);
    assert IndexOfAny([c], {'e', 'E'}).None?;
    IndexOfAnyAppend(t, [c], {'e', 'E'});
    IndexOfAnyAppend(t, [c], {'.'});
    assert u[|n| + 1..] == d.frac + [c];
    assert u[|u| - 1] == c;
    ParseFloatBadFraction("" + u + w, u, |n|);
  }

  /** The file, group, record and unit separators '\x1c' to '\x1f' are not
      whitespace to `int()` and `float()`, though `str.isspace` accepts
      them: a number followed by one of them does not convert. */
  lemma SeparatorsNotStripped(i: int, d: Fixed, c: char, w: string)
    requires ValidFixed(d) && '\U{1C}' <= c <= '\U{1F}' && AllSpace(w)
    ensures ParseInt(IntText(i) + [c] + w) == None
    ensures ParseFloat(FixedText(d) + [c] + w) == None
  {
    ParseIntTrailing(i, c, w);
    ParseFloatTrailing(d, c, w);
  }
}
