/** What the number parser of `src/schema.rs` makes of numbers as they are written. */
module Numbers {
  import opened Wrappers
  import opened FloatParser

  predicate Decimal(s: string) {
    forall i :: 0 <= i < |s| ==> '0' <= s[i] <= '9'
  }

  lemma DecimalDigits(s: string)
    ensures AllDigits(s) <==> Decimal(s)
  {
  }

  /** Each digit behind others makes ten times as much of them. */
  lemma ValueOfDigits(s: string, c: char)
    requires Decimal(s) && '0' <= c <= '9'
    ensures AllDigits("") && Value("") == 0
    ensures AllDigits(s) && AllDigits(s + [c]) && Value(s + [c]) == 10 * Value(s) + (c as int - 48)
  {
    assert (s + [c])[..|s|] == s;
  }

  /** 10 to the n-th. */
  function Ten(n: nat): nat {
    if n == 0 then 1 else 10 * Ten(n - 1)
  }

  lemma {:induction false} TenIsPow10(n: nat)
    ensures Ten(n) == Pow10(n)
  {
    if n > 0 {
      TenIsPow10(n - 1);
    }
  }

  lemma {:induction false} ValueConcat(w: string, f: string)
    requires Decimal(w) && Decimal(f)
    ensures AllDigits(w) && AllDigits(f) && AllDigits(w + f)
    ensures Value(w + f) == Value(w) * Ten(|f|) + Value(f)
  {
    hide Value;
    if f == [] {
      assert w + f == w;
      DecimalDigits(w);
      ValueOfDigits(w, '0');
    } else {
      var front, c := f[..|f| - 1], f[|f| - 1];
      ValueConcat(w, front);
      assert w + f == w + front + [c] && f == front + [c];
      ValueOfDigits(w + front, c);
      ValueOfDigits(front, c);
      ConcatStep(Value(w), Ten(|front|), Value(front), c as int - 48);
    }
  }

  lemma ConcatStep(a: nat, ten: nat, b: nat, digit: nat)
    ensures 10 * (a * ten + b) + digit == a * (10 * ten) + (10 * b + digit)
  {
    Distribute(a, ten);
  }

  lemma Distribute(a: nat, b: nat)
    ensures 10 * (a * b) == a * (10 * b)
  {
  }

  /** What the parser sums up for the digits on both sides of a point. */
  function Magnitude(w: string, f: string): real
    requires AllDigits(w) && AllDigits(f)
  {
    Value(w) as real + Fraction(Value(f) as real, Pow10(|f|) as real)
  }

  lemma MagnitudeScaled(w: string, f: string)
    requires Decimal(w) && Decimal(f)
    ensures AllDigits(w) && AllDigits(f) && AllDigits(w + f)
    ensures Magnitude(w, f) * Ten(|f|) as real == Value(w + f) as real
    ensures -Magnitude(w, f) * Ten(|f|) as real == -(Value(w + f) as real)
  {
    hide Value, Ten, Pow10;
    ValueConcat(w, f);
    TenIsPow10(|f|);
    Scaled(Value(w), Value(f), Ten(|f|));
  }

  lemma Scaled(whole: nat, part: nat, scale: nat)
    requires scale > 0
    ensures var m := whole as real + Fraction(part as real, scale as real);
            m * scale as real == (whole * scale + part) as real && -m * scale as real == -((whole * scale + part) as real)
  {
    var q := part as real / scale as real;
    assert q * scale as real == part as real;
    Casts(whole, scale, part);
    Opposite(whole as real + q, scale as real);
  }

  lemma Opposite(a: real, b: real)
    ensures -a * b == -(a * b)
  {
  }

  /** A sign, digits, and possibly a point with digits behind it. */
  predicate Written(sign: string, w: string, f: string) {
    sign in ["", "-", "+"] && w != "" && Decimal(w) && Decimal(f)
  }

  lemma WholeParts(sign: string, w: string, t: string)
    requires Written(sign, w, "")
    ensures var s := sign + w + t;
            && SignLength(s) == |sign| && s[|sign|..|sign| + |w|] == w && AllDigits(s[|sign|..|sign| + |w|])
            && s[|sign| + |w|..] == t && (s[0] == '-' <==> sign == "-")
  {
    var s := sign + w + t;
    assert s[|sign|] == w[0];
    DecimalDigits(w);
  }

  /** A whole number followed by something else: an exponent hands over to the standard parser, anything else is ignored. */
  lemma WholeNumber(sign: string, w: string, t: string, fallback: string -> Option<real>)
    requires Written(sign, w, "") && (t != [] ==> !('0' <= t[0] <= '9') && t[0] != '.')
    ensures AllDigits(w)
    ensures var s := sign + w + t;
            Number(s, fallback) ==
            if t != [] && (t[0] == 'e' || t[0] == 'E') then fallback(s)
            else Some(if sign == "-" then -(Value(w) as real) else Value(w) as real)
  {
    DecimalDigits(w);
    hide LiteralValue, Value, Longest, SignLength, IsLiteral, LiteralAt;
    var s := sign + w + t;
    var k := |sign| + |w|;
    WholeParts(sign, w, t);
    assert t != [] ==> s[k] == t[0];
    LongestEnds(s, k, k);
    LiteralParts(s, k, k);
    LongestCounts(s, k, fallback);
  }

  lemma LongestCounts(s: string, i: nat, fallback: string -> Option<real>)
    requires Longest(s, i) && forall n: nat :: Longest(s, n) ==> n == i
    ensures Number(s, fallback) == if i < |s| && (s[i] == 'e' || s[i] == 'E') then fallback(s) else Some(LiteralValue(s[..i]))
  {
    hide LiteralValue, Longest;
  }

  lemma PointParts(sign: string, w: string, f: string, t: string)
    requires Written(sign, w, f)
    ensures var s := sign + w + ("." + f + t);
            var k := |sign| + |w|;
            && s[k] == '.' && s[k + 1..k + 1 + |f|] == f && AllDigits(f) && AllDigits(w)
            && s[k + 1 + |f|..] == t && (t != [] ==> s[k + 1 + |f|] == t[0])
  {
    DecimalDigits(f);
    DecimalDigits(w);
    var s, k := sign + w + ("." + f + t), |sign| + |w|;
    assert s[k..] == "." + f + t;
    assert ("." + f + t)[1..1 + |f|] == f && ("." + f + t)[1 + |f|..] == t;
  }

  /** Where a number with a point ends, and what is summed up by then. */
  lemma PointEnds(sign: string, w: string, f: string, t: string)
    requires Written(sign, w, f) && (t != [] ==> !('0' <= t[0] <= '9'))
    ensures AllDigits(w) && AllDigits(f)
    ensures var s := sign + w + ("." + f + t);
            var i := |sign| + |w| + 1 + |f|;
            && i <= |s| && (i < |s| <==> t != []) && (t != [] ==> s[i] == t[0])
            && Longest(s, i) && (forall n: nat :: Longest(s, n) ==> n == i)
            && IsLiteral(s[..i]) && LiteralValue(s[..i]) == if sign == "-" then -Magnitude(w, f) else Magnitude(w, f)
  {
    hide LiteralValue, Value, Longest, Fraction, Pow10, IsLiteral, LiteralAt, SignLength;
    var s := sign + w + ("." + f + t);
    var k, i := |sign| + |w|, |sign| + |w| + 1 + |f|;
    WholeParts(sign, w, "." + f + t);
    PointParts(sign, w, f, t);
    LongestEnds(s, k, i);
    LiteralParts(s, k, i);
  }

  /** A number with a point: the digits on both sides, as one number, are what it is worth ten times over for each digit
      behind the point. */
  lemma PointNumber(sign: string, w: string, f: string, t: string, fallback: string -> Option<real>)
    requires Written(sign, w, f) && (t != [] ==> !('0' <= t[0] <= '9'))
    ensures AllDigits(w + f)
    ensures var s := sign + w + ("." + f + t);
            var r := Number(s, fallback);
            if t != [] && (t[0] == 'e' || t[0] == 'E') then r == fallback(s)
            else r.Some? && r.value * Ten(|f|) as real == if sign == "-" then -(Value(w + f) as real) else Value(w + f) as real
  {
    hide LiteralValue, Value, Longest, Magnitude, Ten, Number;
    MagnitudeScaled(w, f);
    PointEnds(sign, w, f, t);
    LongestCounts(sign + w + ("." + f + t), |sign| + |w| + 1 + |f|, fallback);
  }

  lemma Casts(a: nat, b: nat, c: nat)
    ensures (a * b + c) as real == a as real * b as real + c as real
  {
  }

  /** The value of a literal with a point. */
  lemma LiteralWithPoint(sign: string, w: string, f: string)
    requires Written(sign, w, f)
    ensures var s := sign + w + ("." + f);
            && IsLiteral(s) && AllDigits(w + f)
            && LiteralValue(s) * Ten(|f|) as real == if sign == "-" then -(Value(w + f) as real) else Value(w + f) as real
  {
    hide LiteralValue, Value, Longest, Magnitude, Ten, Pow10, Fraction, IsLiteral, LiteralAt, SignLength, Decimal, AllDigits;
    NothingBehind(sign, w, f);
    PointEnds(sign, w, f, "");
    MagnitudeScaled(w, f);
  }

  lemma NothingBehind(sign: string, w: string, f: string)
    ensures var s := sign + w + ("." + f + "");
            s == sign + w + ("." + f) && |s| == |sign| + |w| + 1 + |f| && s[..|sign| + |w| + 1 + |f|] == s
  {
    assert "." + f + "" == "." + f;
  }

  /** Without a digit at the start, or behind a sign there, there is no number. */
  lemma NotANumber(s: string, fallback: string -> Option<real>)
    ensures Number(s, fallback) == None <==
            (var rest := if s != [] && (s[0] == '-' || s[0] == '+') then s[1..] else s;
             rest == [] || !('0' <= rest[0] <= '9'))
  {
    if (var rest := if s != [] && (s[0] == '-' || s[0] == '+') then s[1..] else s; rest == [] || !('0' <= rest[0] <= '9')) {
      NothingParsed(s, fallback);
      ParsesNumber(s, fallback, None);
    }
  }
}
