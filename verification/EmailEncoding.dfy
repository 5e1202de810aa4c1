/** Hiding an e-mail address: each character becomes a reference, decimal and hexadecimal in turn. */
module EmailEncoding {
  import opened Entities
  import opened Numbers
  import opened Options
  import opened Sequences

  /** The code of one byte; bytes above 127 stay as they are. */
  function EncodeChar(c: char, inHex: bool): string {
    if c >= '\U{0080}' then [c]
    else if inHex then "&#x" + Digits(c as nat, 16) + ";"
    else "&#" + Digits(c as nat, 10) + ";"
  }

  function Email(s: string, inHex: bool): string {
    if s == "" then "" else EncodeChar(s[0], inHex) + Email(s[1..], !inHex)
  }

  lemma {:induction false} NoEmail(inHex: bool)
    ensures Email("", inHex) == ""
  {
  }

  lemma {:induction false} EmailStep(sofar: string, s: string, inHex: bool)
    requires s != ""
    ensures sofar + Email(s, inHex) == sofar + EncodeChar(s[0], inHex) + Email(s[1..], !inHex)
  {
  }

  method EmailEncode(src: string) returns (r: string)
    ensures r == Email(src, false)
  {
    hide Email, Digits;
    r := "";
    var inHex := false;
    assert src[0..] == src;
    NoEmail(inHex);
    for i := 0 to |src|
      invariant r + Email(src[i..], inHex) == Email(src, false)
    {
      EmailStep(r, src[i..], inHex);
      assert src[i..][1..] == src[i + 1..];
      if src[i] >= '\U{0080}' {
        r := r + [src[i]];
      } else if inHex {
        r := r + ("&#x" + Digits(src[i] as nat, 16) + ";");
      } else {
        r := r + ("&#" + Digits(src[i] as nat, 10) + ";");
      }
      inHex := !inHex;
    }
    NoEmail(inHex);
  }

  lemma {:induction false} FewDigits(n: nat)
    requires n < 128
    ensures |Digits(n, 10)| <= 3 && |Digits(n, 16)| <= 2
  {
    var q := n / 10;
    assert |Digits(q, 10)| <= 2;
  }

  // ---------------------------------------------------------------------------------------
  // Encoding the encoded address, and decoding it
  // ---------------------------------------------------------------------------------------

  lemma {:induction false} CodeIsNumeric(c: char, inHex: bool, rest: string)
    requires c < '\U{0080}'
    ensures NumericAt(EncodeChar(c, inHex) + rest)
  {
    hide Digits, NumberAt;
    var n, s := c as nat, EncodeChar(c, inHex) + rest;
    FewDigits(n);
    if inHex {
      NumberBefore(n, rest, 16, 2);
      assert s[3..] == Digits(n, 16) + ";" + rest;
    } else {
      NumberBefore(n, rest, 10, 3);
      assert s[2..] == Digits(n, 10) + ";" + rest;
    }
  }

  lemma {:induction false} NumberBefore(n: nat, rest: string, base: Base, most: nat)
    requires |Digits(n, base)| <= most
    ensures NumberAt(Digits(n, base) + ";" + rest, base, most)
  {
    hide Digits;
    var d := Digits(n, base);
    DigitsAreDigits(n, base);
    DigitsBefore(d, ";" + rest, base);
    assert d + ";" + rest == d + (";" + rest) && (d + ";" + rest)[|d|] == ';';
  }

  lemma {:induction false} NumberRefers(n: nat, inHex: bool, names: Names)
    requires n < 128 && HasTheFour(names)
    ensures Reference(NumberBody(n, inHex), names) == Some(n as char) && ';' !in NumberBody(n, inHex)
  {
    hide Digits, Value, IsNumber;
    var body := NumberBody(n, inHex);
    var base: Base := if inHex then 16 else 10;
    var d := Digits(n, base);
    DigitsAreDigits(n, base);
    DigitsReadBack(n, base);
    assert StartsWith(body, "#");
    if inHex {
      NotDecimal("x" + d);
      assert body[1..] == "x" + d && body[2..] == d && StartsWith(body, "#x");
    } else {
      assert body[1..] == d;
    }
  }

  function NumberBody(n: nat, inHex: bool): string {
    if inHex then "#x" + Digits(n, 16) else "#" + Digits(n, 10)
  }

  lemma {:induction false} CodeDecodes(c: char, inHex: bool, rest: string, names: Names)
    requires c < '\U{0080}' && HasTheFour(names)
    ensures Decode(EncodeChar(c, inHex) + rest, names) == [c] + Decode(rest, names)
  {
    hide Digits, Decode, Reference, HasTheFour;
    NumberRefers(c as nat, inHex, names);
    DecodesReference(NumberBody(c as nat, inHex), rest, names);
    assert EncodeChar(c, inHex) == "&" + NumberBody(c as nat, inHex) + ";";
  }

  lemma {:induction false} NotDecimal(s: string)
    requires s != "" && s[0] == 'x'
    ensures !IsNumber(s, 10)
  {
  }

  /** An encoded address decodes to the address, whatever bytes it is made of. */
  lemma {:induction false} EmailDecodesBack(s: string, inHex: bool, names: Names)
    requires HasTheFour(names)
    ensures Decode(Email(s, inHex), names) == s
  {
    hide Decode;
    if s == "" {
      NothingDecodes(names);
    } else {
      EmailDecodesBack(s[1..], !inHex, names);
      if s[0] < '\U{0080}' {
        CodeDecodes(s[0], inHex, Email(s[1..], !inHex), names);
      } else {
        DecodesPlain(s[0], Email(s[1..], !inHex), names);
      }
      assert [s[0]] + s[1..] == s;
    }
  }

  predicate Harmless(c: char) {
    c != '&' && c != '<' && c != '>' && c != '\"'
  }

  predicate AllHarmless(s: string) {
    forall i :: 0 <= i < |s| ==> Harmless(s[i])
  }

  lemma {:induction false} HarmlessStep(c: char, rest: string, f: Flags)
    requires Harmless(c)
    ensures Encode([c] + rest, f) == [c] + Encode(rest, f)
  {
    assert ([c] + rest)[1..] == rest;
  }

  lemma {:induction false} HarmlessPasses(p: string, rest: string, f: Flags)
    requires AllHarmless(p)
    ensures Encode(p + rest, f) == p + Encode(rest, f)
  {
    hide Encode;
    if p == "" {
      assert p + rest == rest && p + Encode(rest, f) == Encode(rest, f);
    } else {
      HarmlessPasses(p[1..], rest, f);
      HarmlessStep(p[0], p[1..] + rest, f);
      Regroup([p[0]], p[1..], rest);
      Regroup([p[0]], p[1..], Encode(rest, f));
      assert [p[0]] + p[1..] == p;
    }
  }

  /** One character of an encoded address passes through the encoder. */
  lemma {:induction false} PassesThrough(p: string, rest: string, f: Flags)
    requires p != "" && AllHarmless(p[1..])
    requires Harmless(p[0]) || (p[0] == '&' && if f.amps then Found(p + rest, true) else !f.doubleAmps)
    ensures Encode(p + rest, f) == p + Encode(rest, f)
  {
    hide Found, AllHarmless, Encode;
    assert (p + rest)[1..] == p[1..] + rest;
    EncodesFirst(p + rest, f);
    HarmlessPasses(p[1..], rest, f);
    assert [p[0]] + (p[1..] + Encode(rest, f)) == p + Encode(rest, f);
  }

  lemma {:induction false} CodeShape(c: char, inHex: bool)
    ensures var p := EncodeChar(c, inHex);
      && p != "" && AllHarmless(p[1..])
      && p[0] == if c < '\U{0080}' then '&' else c
  {
    hide Digits, IsNumber;
    if c < '\U{0080}' {
      var base: Base := if inHex then 16 else 10;
      DigitsAreDigits(c as nat, base);
      NumberIsHarmless(Digits(c as nat, base), base);
    }
  }

  lemma {:induction false} NumberIsHarmless(d: string, base: Base)
    requires IsNumber(d, base)
    ensures AllHarmless(d)
  {
    forall i | 0 <= i < |d| ensures Harmless(d[i]) {
      assert DigitValue(d[i]) < base;
    }
  }

  predicate NothingHidden(s: string) {
    forall i :: 0 <= i < |s| ==> s[i] >= '\U{0080}'
  }

  lemma {:induction false} EmailPasses(s: string, inHex: bool, f: Flags)
    requires f.amps || !f.doubleAmps || NothingHidden(s)
    ensures Encode(Email(s, inHex), f) == Email(s, inHex)
  {
    hide NumericAt, EncodeChar, AllHarmless;
    if s != "" {
      var p, rest := EncodeChar(s[0], inHex), Email(s[1..], !inHex);
      EmailPasses(s[1..], !inHex, f);
      CodeShape(s[0], inHex);
      if s[0] < '\U{0080}' {
        CodeIsNumeric(s[0], inHex, rest);
      }
      PassesThrough(p, rest, f);
    }
  }

  lemma {:induction false} EncodingGrows(s: string, f: Flags)
    ensures |Encode(s, f)| >= |s|
    ensures !f.amps && f.doubleAmps && '&' in s ==> |Encode(s, f)| > |s|
  {
    if s != "" {
      EncodingGrows(s[1..], f);
      assert s == [s[0]] + s[1..];
    }
  }

  lemma {:induction false} EmailHasReference(s: string, inHex: bool)
    requires !NothingHidden(s)
    ensures '&' in Email(s, inHex)
  {
    CodeShape(s[0], inHex);
    if s[0] >= '\U{0080}' {
      var i :| 0 <= i < |s| && s[i] < '\U{0080}';
      assert s[1..][i - 1] == s[i];
      EmailHasReference(s[1..], !inHex);
    }
  }

  /**
   * An encoded address goes through the encoder unchanged, as link target and as link text, if
   * and only if the encoder does not double ampersands or there is no reference in it.
   */
  lemma {:induction false} EmailPassesExactly(s: string, f: Flags)
    ensures Encode(Email(s, false), f) == Email(s, false) <==> f.amps || !f.doubleAmps || NothingHidden(s)
  {
    hide Email, Encode;
    if f.amps || !f.doubleAmps || NothingHidden(s) {
      EmailPasses(s, false, f);
    } else {
      EmailHasReference(s, false);
      EncodingGrows(Email(s, false), f);
    }
  }

  // ---------------------------------------------------------------------------------------
  // The shape of an encoded address
  // ---------------------------------------------------------------------------------------

  /** Characters are written in decimal and in hexadecimal in turn, the first one in decimal. */
  lemma {:induction false} EmailAlternates(a: char, b: char, s: string)
    requires a < '\U{0080}' && b < '\U{0080}'
    ensures Email([a], false) == "&#" + Digits(a as nat, 10) + ";"
    ensures Email([a, b] + s, false) ==
      "&#" + Digits(a as nat, 10) + ";" + ("&#x" + Digits(b as nat, 16) + ";" + Email(s, false))
  {
    hide Digits;
    assert ([a, b] + s)[1..] == [b] + s && ([b] + s)[1..] == s && [a][1..] == "";
    assert Email([b] + s, true) == "&#x" + Digits(b as nat, 16) + ";" + Email(s, false);
  }
}
