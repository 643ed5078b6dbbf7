/** The hand-written number parser of `src/schema.rs`, against the literals it accepts and their values. */
module FloatParser {
  import opened Wrappers

  predicate IsDigit(c: char) {
    '0' <= c <= '9'
  }

  predicate AllDigits(s: string) {
    forall i :: 0 <= i < |s| ==> IsDigit(s[i])
  }

  /** Decimal value. */
  function Value(s: string): nat
    requires AllDigits(s)
  {
    if s == [] then 0 else 10 * Value(s[..|s| - 1]) + (s[|s| - 1] as int - '0' as int)
  }

  function Pow10(n: nat): nat
    ensures Pow10(n) > 0
  {
    if n == 0 then 1 else 10 * Pow10(n - 1)
  }

  // ---- Literals ----

  function SignLength(s: string): nat {
    if s != [] && (s[0] == '-' || s[0] == '+') then 1 else 0
  }

  /** `[+-]?digits` up to `k`, then nothing or a point and possibly more digits. */
  predicate LiteralAt(s: string, k: nat) {
    && SignLength(s) < k <= |s|
    && AllDigits(s[SignLength(s)..k])
    && (k < |s| ==> s[k] == '.' && AllDigits(s[k + 1..]))
  }

  ghost predicate IsLiteral(s: string) {
    exists k :: LiteralAt(s, k)
  }

  /** What digits behind the point are worth. */
  function Fraction(digits: real, scale: real): real
    requires scale != 0.0
  {
    digits / scale
  }

  /** The number a literal with its integer part ending at `k` stands for. */
  function ValueAt(s: string, k: nat): real
    requires LiteralAt(s, k)
  {
    var whole := Value(s[SignLength(s)..k]) as real;
    var magnitude := if k < |s| then whole + Fraction(Value(s[k + 1..]) as real, Pow10(|s| - k - 1) as real) else whole;
    if s[0] == '-' then -magnitude else magnitude
  }

  /** The longest prefix of `s` that is a literal has length `n`. */
  ghost predicate Longest(s: string, n: nat) {
    n <= |s| && IsLiteral(s[..n]) && forall m :: n < m <= |s| ==> !IsLiteral(s[..m])
  }

  ghost function LiteralValue(s: string): real
    requires IsLiteral(s)
  {
    var k :| LiteralAt(s, k);
    ValueAt(s, k)
  }

  lemma DigitAt(s: string, i: nat, j: nat, x: nat)
    requires i <= x < j <= |s| && AllDigits(s[i..j])
    ensures IsDigit(s[x])
  {
    assert s[x] == s[i..j][x - i];
  }

  /** A literal has only one integer part. */
  lemma IntegerPartUnique(s: string, k: nat, j: nat)
    requires LiteralAt(s, k) && LiteralAt(s, j)
    ensures k == j
  {
    var i := SignLength(s);
    if k < j {
      DigitAt(s, i, j, k);
    } else if j < k {
      DigitAt(s, i, k, j);
    }
  }

  /** The integer part of a literal prefix is the whole run of digits behind the sign. */
  lemma PrefixIntegerPart(s: string, m: nat, j: nat, k: nat)
    requires m <= |s| && LiteralAt(s[..m], j)
    requires SignLength(s) <= k <= |s| && AllDigits(s[SignLength(s)..k]) && (k < |s| ==> !IsDigit(s[k]))
    ensures SignLength(s[..m]) == SignLength(s) < j <= k
    ensures j < k ==> j == m
  {
    var i := SignLength(s);
    if j > k {
      DigitAt(s[..m], i, j, k);
    } else if j < k {
      DigitAt(s, i, k, j);
    }
  }

  /** What parsing means: the value of the longest literal prefix, or nothing when no prefix is a literal; an exponent
      behind that prefix hands the whole text to `fallback`. */
  ghost predicate Parses(s: string, fallback: string -> Option<real>, r: Option<real>) {
    && ((forall n :: 0 <= n <= |s| ==> !IsLiteral(s[..n])) ==> r == None)
    && forall n: nat :: Longest(s, n) ==>
         r == if n < |s| && (s[n] == 'e' || s[n] == 'E') then fallback(s) else Some(LiteralValue(s[..n]))
  }

  /** The one result that parsing can have. */
  ghost function Number(s: string, fallback: string -> Option<real>): Option<real> {
    if n: nat :| Longest(s, n) then
      if n < |s| && (s[n] == 'e' || s[n] == 'E') then fallback(s) else Some(LiteralValue(s[..n]))
    else None
  }

  lemma ParsesNumber(s: string, fallback: string -> Option<real>, r: Option<real>)
    ensures Parses(s, fallback, r) ==> r == Number(s, fallback)
  {
    if !exists n: nat :: Longest(s, n) {
      forall n | 0 <= n <= |s| ensures !IsLiteral(s[..n]) {
        if IsLiteral(s[..n]) {
          LongestExists(s, n);
        }
      }
    }
  }

  lemma {:induction false} LongestExists(s: string, n: nat)
    requires n <= |s| && IsLiteral(s[..n])
    ensures exists m: nat :: Longest(s, m)
    decreases |s| - n
  {
    if m :| n < m <= |s| && IsLiteral(s[..m]) {
      LongestExists(s, m);
    } else {
      assert Longest(s, n);
    }
  }

  // ---- The code ----

  /** The digit loop, which runs before and behind the point. */
  method ReadDigits(s: string, start: nat) returns (i: nat, digits: real, scale: real)
    requires start <= |s|
    ensures start <= i <= |s| && AllDigits(s[start..i]) && (i < |s| ==> !IsDigit(s[i]))
    ensures digits == Value(s[start..i]) as real && scale == Pow10(i - start) as real
  {
    i, digits, scale := start, 0.0, 1.0;
    while i < |s| && IsDigit(s[i])
      invariant start <= i <= |s| && AllDigits(s[start..i])
      invariant digits == Value(s[start..i]) as real && scale == Pow10(i - start) as real
    {
      ValueNext(s, start, i);
      digits := digits * 10.0 + (s[i] as int - '0' as int) as real;
      scale := scale * 10.0;
      i := i + 1;
    }
  }

  /** `fallback` is the standard parser, used as soon as an exponent follows. */
  method FastFloatParse(s: string, fallback: string -> Option<real>) returns (r: Option<real>)
    ensures Parses(s, fallback, r)
  {
    hide Parses;
    if s == [] {
      NothingParsed(s, fallback);
      return None;
    }
    var i := 0;
    var negative := false;
    if s[0] == '-' {
      negative := true;
      i := 1;
    } else if s[0] == '+' {
      i := 1;
    }
    if i >= |s| {
      NothingParsed(s, fallback);
      return None;
    }
    hide Fraction, Value, Pow10, IsLiteral, LiteralAt, Longest, LiteralValue, ValueAt;
    var start := i;
    var intPart, intScale;
    i, intPart, intScale := ReadDigits(s, start);
    if i == start {
      NothingParsed(s, fallback);
      return None;
    }
    ghost var k := i;
    var result := intPart;
    if i < |s| && s[i] == '.' {
      var fracPart, fracDiv;
      i, fracPart, fracDiv := ReadDigits(s, i + 1);
      result := result + Fraction(fracPart, fracDiv);
    }
    LongestParsed(s, k, i, fallback);
    if i < |s| && (s[i] == 'e' || s[i] == 'E') {
      return fallback(s);
    }
    if negative {
      result := -result;
    }
    return Some(result);
  }

  lemma NothingParsed(s: string, fallback: string -> Option<real>)
    requires SignLength(s) < |s| ==> !IsDigit(s[SignLength(s)])
    ensures Parses(s, fallback, None)
  {
    NoLiteral(s);
  }

  lemma LongestParsed(s: string, k: nat, i: nat, fallback: string -> Option<real>)
    requires SignLength(s) < k <= i <= |s| && AllDigits(s[SignLength(s)..k]) && (k < |s| ==> !IsDigit(s[k]))
    requires if k < |s| && s[k] == '.' then k < i && AllDigits(s[k + 1..i]) && (i < |s| ==> !IsDigit(s[i])) else i == k
    ensures var whole := Value(s[SignLength(s)..k]) as real;
            var magnitude := if k < i then whole + Fraction(Value(s[k + 1..i]) as real, Pow10(i - k - 1) as real) else whole;
            Parses(s, fallback, if i < |s| && (s[i] == 'e' || s[i] == 'E') then fallback(s)
                                else Some(if s[0] == '-' then -magnitude else magnitude))
  {
    LongestEnds(s, k, i);
    LiteralParts(s, k, i);
    hide LiteralValue, Value, Pow10, Fraction;
  }

  lemma ValueNext(s: string, start: nat, i: nat)
    requires start <= i < |s| && AllDigits(s[start..i]) && IsDigit(s[i])
    ensures AllDigits(s[start..i + 1])
    ensures Value(s[start..i + 1]) as real == Value(s[start..i]) as real * 10.0 + (s[i] as int - '0' as int) as real
    ensures Pow10(i + 1 - start) as real == Pow10(i - start) as real * 10.0
  {
    assert s[start..i + 1] == s[start..i] + [s[i]];
    assert s[start..i + 1][..i - start] == s[start..i];
  }

  /** Without a digit behind the sign, no prefix is a literal. */
  lemma NoLiteral(s: string)
    requires SignLength(s) < |s| ==> !IsDigit(s[SignLength(s)])
    ensures forall n :: 0 <= n <= |s| ==> !IsLiteral(s[..n])
  {
    forall n | 0 <= n <= |s| ensures !IsLiteral(s[..n]) {
      forall j: nat ensures !LiteralAt(s[..n], j) {
        if SignLength(s[..n]) < j <= n {
          assert s[..n][SignLength(s[..n])..j][0] == s[SignLength(s)];
        }
      }
    }
  }

  /** Where the loops stop is the end of the longest literal prefix. */
  lemma LongestEnds(s: string, k: nat, i: nat)
    requires SignLength(s) < k <= i <= |s| && AllDigits(s[SignLength(s)..k]) && (k < |s| ==> !IsDigit(s[k]))
    requires if k < |s| && s[k] == '.' then k < i && AllDigits(s[k + 1..i]) && (i < |s| ==> !IsDigit(s[i])) else i == k
    ensures Longest(s, i) && LiteralAt(s[..i], k)
    ensures forall n: nat :: Longest(s, n) ==> n == i
  {
    assert SignLength(s[..i]) == SignLength(s);
    assert s[..i][SignLength(s)..k] == s[SignLength(s)..k];
    assert k < i ==> s[..i][k + 1..] == s[k + 1..i];
    assert LiteralAt(s[..i], k);
    forall m | i < m <= |s| ensures !IsLiteral(s[..m]) {
      forall j: nat ensures !LiteralAt(s[..m], j) {
        if LiteralAt(s[..m], j) {
          PrefixIntegerPart(s, m, j, k);
          if i > k {
            DigitAt(s[..m], k + 1, m, i);
          }
        }
      }
    }
    forall n: nat | Longest(s, n) ensures n == i {
      assert n < i ==> IsLiteral(s[..i]);
    }
  }

  /** The value of the literal the loops have read. */
  lemma LiteralParts(s: string, k: nat, i: nat)
    requires i <= |s| && LiteralAt(s[..i], k)
    ensures IsLiteral(s[..i]) && SignLength(s) < k <= i && AllDigits(s[SignLength(s)..k]) && (k < i ==> AllDigits(s[k + 1..i]))
    ensures var whole := Value(s[SignLength(s)..k]) as real;
            var magnitude := if k < i then whole + Fraction(Value(s[k + 1..i]) as real, Pow10(i - k - 1) as real) else whole;
            LiteralValue(s[..i]) == if s[0] == '-' then -magnitude else magnitude
  {
    var t := s[..i];
    assert t[SignLength(s)..k] == s[SignLength(s)..k];
    assert k < i ==> t[k + 1..] == s[k + 1..i];
    assert LiteralValue(t) == ValueAt(t, k) by {
      forall j | LiteralAt(t, j) ensures j == k {
        IntegerPartUnique(t, k, j);
      }
    }
  }

  // ---- Printing and parsing ----

  function Print(n: nat): (s: string)
    ensures s != [] && AllDigits(s)
  {
    var digit := [('0' as int + n % 10) as char];
    if n < 10 then digit else Print(n / 10) + digit
  }

  function PrintInt(z: int): string {
    if z < 0 then ['-'] + Print(-z) else Print(z)
  }

  lemma {:induction false} PrintValue(n: nat)
    ensures Value(Print(n)) == n
  {
    var s := Print(n);
    if n >= 10 {
      PrintValue(n / 10);
      assert s[..|s| - 1] == Print(n / 10);
    }
  }

  /** A printed integer is its own longest literal, and stands for the integer: parsing it is the identity. */
  lemma PrintParses(z: int)
    ensures var s := PrintInt(z); Longest(s, |s|) && s[..|s|] == s && LiteralValue(s) == z as real
  {
    var s := PrintInt(z);
    var digits := Print(if z < 0 then -z else z);
    PrintValue(if z < 0 then -z else z);
    assert s[..|s|] == s;
    assert IsDigit(digits[0]);
    assert s[SignLength(s)..|s|] == digits;
    assert LiteralAt(s, |s|);
    LiteralParts(s, |s|, |s|);
    assert s[SignLength(s)..|s|] == digits;
  }

  lemma {:induction false} ValueGrows(s: string, j: nat)
    requires AllDigits(s) && j <= |s|
    ensures AllDigits(s[..j]) && Value(s[..j]) <= Value(s)
    ensures j < |s| ==> 10 * Value(s[..j]) <= Value(s)
  {
    if j < |s| {
      var front := s[..|s| - 1];
      ValueGrows(front, j);
      assert front[..j] == s[..j];
    } else {
      assert s[..j] == s;
    }
  }

  /** While a printed integer below 2^53 is parsed, every accumulator, and every product that extends it, is an integer
      below 2^53, where 64-bit floating point is exact. */
  lemma AccumulatorsExact(z: int, j: nat)
    requires -0x20_0000_0000_0000 < z < 0x20_0000_0000_0000
    ensures var digits := Print(if z < 0 then -z else z);
            j <= |digits| ==>
              AllDigits(digits[..j]) && Value(digits[..j]) < 0x20_0000_0000_0000 &&
              (j < |digits| ==> 10 * Value(digits[..j]) < 0x20_0000_0000_0000)
  {
    var n := if z < 0 then -z else z;
    PrintValue(n);
    if j <= |Print(n)| {
      ValueGrows(Print(n), j);
    }
  }
}
