/** Decimal and hexadecimal numbers in text. */
module Numbers {
  function DigitValue(c: char): (v: nat)
    ensures v <= 16
  {
    if '0' <= c <= '9' then c as int - '0' as int
    else if 'a' <= c <= 'f' then c as int - 'a' as int + 10
    else if 'A' <= c <= 'F' then c as int - 'A' as int + 10
    else 16
  }

  type Base = b: nat | b == 10 || b == 16 witness 10

  function DigitsIn(s: string, base: Base): (n: nat)
    ensures n <= |s| && (forall i :: 0 <= i < n ==> DigitValue(s[i]) < base) && (n < |s| ==> DigitValue(s[n]) >= base)
  {
    if s == "" || DigitValue(s[0]) >= base then 0 else 1 + DigitsIn(s[1..], base)
  }

  function Shifted(n: nat, base: Base): nat {
    if base == 10 then 10 * n else 16 * n
  }

  function Value(digits: string, base: Base): nat {
    if digits == "" then 0 else Shifted(Value(digits[..|digits| - 1], base), base) + DigitValue(digits[|digits| - 1])
  }

  predicate IsNumber(s: string, base: Base) {
    s != "" && DigitsIn(s, base) == |s|
  }

  function Digit(v: nat): (c: char)
    requires v < 16
    ensures DigitValue(c) == v && c != ';'
  {
    if v < 10 then '0' + v as char else 'a' + (v - 10) as char
  }

  function Quotient(n: nat, base: Base): (q: nat)
    ensures Shifted(q, base) <= n < Shifted(q + 1, base)
  {
    if base == 10 then n / 10 else n / 16
  }

  function Remainder(n: nat, base: Base): (r: nat)
    ensures r < base && n == Shifted(Quotient(n, base), base) + r
  {
    if base == 10 then n % 10 else n % 16
  }

  /** The number as the stream writes it: no padding, hexadecimal in lower case. */
  function Digits(n: nat, base: Base): (s: string)
    ensures s != ""
  {
    if n < base then [Digit(n)] else Digits(Quotient(n, base), base) + [Digit(Remainder(n, base))]
  }

  lemma {:induction false} DigitsReadBack(n: nat, base: Base)
    ensures Value(Digits(n, base), base) == n
    decreases n
  {
    var s := Digits(n, base);
    if n < base {
      assert s[..0] == "";
    } else {
      DigitsReadBack(Quotient(n, base), base);
      assert s[..|s| - 1] == Digits(Quotient(n, base), base);
    }
  }

  lemma {:induction false} DigitsStep(s: string, base: Base)
    requires s != ""
    ensures DigitsIn(s, base) == if DigitValue(s[0]) < base then 1 + DigitsIn(s[1..], base) else 0
  {
    hide DigitValue;
  }

  lemma {:induction false} AllDigits(s: string, c: char, base: Base)
    requires DigitsIn(s, base) == |s| && DigitValue(c) < base
    ensures DigitsIn(s + [c], base) == |s| + 1
  {
    hide DigitsIn, DigitValue;
    if s == "" {
      assert s + [c] == [c] && [c][1..] == "";
      DigitsStep([c], base);
    } else {
      assert (s + [c])[1..] == s[1..] + [c];
      DigitsStep(s, base);
      DigitsStep(s + [c], base);
      AllDigits(s[1..], c, base);
    }
  }

  lemma {:induction false} DigitsAreDigits(n: nat, base: Base)
    ensures IsNumber(Digits(n, base), base) && ';' !in Digits(n, base)
    decreases n
  {
    if n < base {
      AllDigits("", Digit(n), base);
      assert "" + [Digit(n)] == [Digit(n)];
    } else {
      DigitsAreDigits(Quotient(n, base), base);
      AllDigits(Digits(Quotient(n, base), base), Digit(Remainder(n, base)), base);
    }
  }

  lemma {:induction false} DigitsBefore(d: string, rest: string, base: Base)
    requires DigitsIn(d, base) == |d| && (rest != "" ==> DigitValue(rest[0]) >= base)
    ensures DigitsIn(d + rest, base) == |d|
  {
    hide DigitsIn, DigitValue;
    if d == "" {
      assert d + rest == rest;
      if rest != "" {
        DigitsStep(rest, base);
      }
    } else {
      DigitsStep(d, base);
      DigitsStep(d + rest, base);
      assert (d + rest)[1..] == d[1..] + rest;
      DigitsBefore(d[1..], rest, base);
    }
  }

  /** Numbers are written in lower case and without padding. */
  lemma {:induction false} DigitsAreLower(n: nat, base: Base)
    ensures var s := Digits(n, base);
      (forall i :: 0 <= i < |s| ==> s[i] in "0123456789abcdef") && (s[0] == '0' ==> s == "0" && n == 0)
  {
    if n < base {
      OneDigit(n);
    } else {
      DigitsAreLower(Quotient(n, base), base);
      OneDigit(Remainder(n, base));
    }
  }

  lemma {:induction false} OneDigit(v: nat)
    requires v < 16
    ensures Digit(v) in "0123456789abcdef" && (Digit(v) == '0' ==> v == 0)
  {
    assert Digit(v) == "0123456789abcdef"[v];
  }
}
