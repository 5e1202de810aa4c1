/** Which ampersands the encoder keeps: what its search looks for, spelled out. */
module EntityReferences {
  import opened Entities
  import opened Numbers

  predicate IsDecimal(d: string) {
    forall i :: 0 <= i < |d| ==> '0' <= d[i] <= '9'
  }

  predicate IsHex(d: string) {
    forall i :: 0 <= i < |d| ==> d[i] in "0123456789abcdefABCDEF"
  }

  predicate IsDecimalReference(s: string, d: string, rest: string) {
    s == "&#" + (d + (";" + rest)) && 1 <= |d| <= 3 && IsDecimal(d)
  }

  predicate IsHexReference(s: string, x: char, d: string, rest: string) {
    s == "&#" + ([x] + (d + (";" + rest))) && x in "xX" && 1 <= |d| <= 2 && IsHex(d)
  }

  /** `&#`, one to three decimal digits or an `x` and one or two hexadecimal ones, and a semicolon. */
  ghost predicate IsReference(s: string) {
    (exists d, rest :: IsDecimalReference(s, d, rest)) || exists x, d, rest :: IsHexReference(s, x, d, rest)
  }

  /** Where the search succeeds: a numeric reference anywhere, or `&amp;` at the start of a line. */
  ghost predicate KeptAt(s: string, p: nat) {
    p < |s| && (IsReference(s[p..]) || ("&amp;" <= s[p..] && (p == 0 || s[p - 1] in "\n\r\U{000C}")))
  }

  lemma {:induction false} DigitKinds(c: char)
    ensures DigitValue(c) < 10 <==> '0' <= c <= '9'
    ensures DigitValue(c) < 16 <==> c in "0123456789abcdefABCDEF"
  {
  }

  lemma {:induction false} DigitsUpTo(d: string, u: string, base: Base)
    requires (forall i :: 0 <= i < |d| ==> DigitValue(d[i]) < base) && (u == "" || DigitValue(u[0]) >= base)
    ensures DigitsIn(d + u, base) == |d|
  {
    hide DigitsIn, DigitValue;
    var s := d + u;
    assert (forall i :: 0 <= i < |d| ==> s[i] == d[i]) && (u != "" ==> s[|d|] == u[0]);
  }

  lemma {:induction false} NumberSplits(s: string, base: Base, most: nat) returns (d: string, rest: string)
    requires NumberAt(s, base, most)
    ensures s == d + (";" + rest) && 1 <= |d| <= most && forall i :: 0 <= i < |d| ==> DigitValue(d[i]) < base
  {
    hide DigitsIn, DigitValue;
    var n := DigitsIn(s, base);
    d, rest := s[..n], s[n + 1..];
    assert ";" + rest == s[n..];
  }

  lemma {:induction false} NumberJoins(d: string, rest: string, base: Base, most: nat)
    requires 1 <= |d| <= most && forall i :: 0 <= i < |d| ==> DigitValue(d[i]) < base
    ensures NumberAt(d + (";" + rest), base, most)
  {
    hide DigitsIn;
    DigitsUpTo(d, ";" + rest, base);
  }

  lemma {:induction false} DecimalExactly(s: string)
    ensures (|s| >= 2 && s[0] == '&' && s[1] == '#' && NumberAt(s[2..], 10, 3)) <==>
      exists d, rest :: IsDecimalReference(s, d, rest)
  {
    hide NumberAt, DigitValue;
    forall c ensures DigitValue(c) < 10 <==> '0' <= c <= '9' {
      DigitKinds(c);
    }
    if |s| >= 2 && s[0] == '&' && s[1] == '#' && NumberAt(s[2..], 10, 3) {
      var d, rest := NumberSplits(s[2..], 10, 3);
      assert s == "&#" + s[2..];
      assert IsDecimalReference(s, d, rest);
    }
    if exists d, rest :: IsDecimalReference(s, d, rest) {
      var d, rest :| IsDecimalReference(s, d, rest);
      NumberJoins(d, rest, 10, 3);
      assert s[2..] == d + (";" + rest);
    }
  }

  lemma {:induction false} HexExactly(s: string)
    ensures (|s| >= 3 && s[0] == '&' && s[1] == '#' && s[2] in "xX" && NumberAt(s[3..], 16, 2)) <==>
      exists x, d, rest :: IsHexReference(s, x, d, rest)
  {
    hide NumberAt, DigitValue;
    forall c ensures DigitValue(c) < 16 <==> c in "0123456789abcdefABCDEF" {
      DigitKinds(c);
    }
    if |s| >= 3 && s[0] == '&' && s[1] == '#' && s[2] in "xX" && NumberAt(s[3..], 16, 2) {
      var d, rest := NumberSplits(s[3..], 16, 2);
      assert s == "&#" + ([s[2]] + s[3..]);
      assert IsHexReference(s, s[2], d, rest);
    }
    if exists x, d, rest :: IsHexReference(s, x, d, rest) {
      var x, d, rest :| IsHexReference(s, x, d, rest);
      NumberJoins(d, rest, 16, 2);
      var u := d + (";" + rest);
      assert s[2] == x && s[3..] == u;
    }
  }

  lemma {:induction false} NumericExactly(s: string)
    ensures NumericAt(s) <==> IsReference(s)
  {
    hide NumberAt, IsDecimalReference, IsHexReference;
    DecimalExactly(s);
    HexExactly(s);
  }

  /** The search behind an ampersand succeeds exactly if there is such a place. */
  lemma {:induction false} FoundExactly(s: string)
    ensures Found(s, true) <==> exists p :: 0 <= p && KeptAt(s, p)
  {
    hide Found, KeptAt;
    FoundAt(s, true);
    assert (exists p :: 0 <= p && KeptAt(s, p)) <==> exists p :: 0 <= p && KeptFrom(s, true, p) by {
      forall p: nat ensures KeptAt(s, p) <==> KeptFrom(s, true, p) {
        KeptAtIs(s, p);
      }
    }
  }

  ghost predicate KeptFrom(s: string, lineStart: bool, p: nat) {
    && p < |s|
    && (IsReference(s[p..]) || ("&amp;" <= s[p..] && if p == 0 then lineStart else s[p - 1] in "\n\r\U{000C}"))
  }

  lemma {:induction false} KeptAtIs(s: string, p: nat)
    ensures KeptAt(s, p) <==> KeptFrom(s, true, p)
  {
    hide IsReference;
  }

  lemma {:induction false} FoundAt(s: string, lineStart: bool)
    ensures Found(s, lineStart) <==> exists p :: 0 <= p && KeptFrom(s, lineStart, p)
  {
    hide NumericAt, IsReference, KeptFrom;
    if s == "" {
      NothingIsKept(lineStart);
    } else {
      var next := IsSeparator(s[0]);
      FoundAt(s[1..], next);
      NumericExactly(s);
      KeptHere(s, lineStart);
      forall p: nat ensures KeptFrom(s, lineStart, p + 1) <==> KeptFrom(s[1..], next, p) {
        KeptLater(s, lineStart, p);
      }
      if p: nat :| KeptFrom(s[1..], next, p) {
        assert KeptFrom(s, lineStart, p + 1);
      }
      if p: nat :| KeptFrom(s, lineStart, p) {
        assert p > 0 ==> KeptFrom(s[1..], next, p - 1);
      }
    }
  }

  lemma {:induction false} NothingIsKept(lineStart: bool)
    ensures forall p: nat :: !KeptFrom("", lineStart, p)
  {
    hide IsReference;
  }

  lemma {:induction false} KeptHere(s: string, lineStart: bool)
    requires s != ""
    ensures KeptFrom(s, lineStart, 0) <==> IsReference(s) || ("&amp;" <= s && lineStart)
  {
    hide IsReference;
    assert s[0..] == s;
  }

  lemma {:induction false} KeptLater(s: string, lineStart: bool, p: nat)
    requires s != ""
    ensures KeptFrom(s, lineStart, p + 1) <==> KeptFrom(s[1..], IsSeparator(s[0]), p)
  {
    hide IsReference;
    if p + 1 < |s| {
      assert s[p + 1..] == s[1..][p..];
      assert p > 0 ==> s[p] == s[1..][p - 1];
    }
  }

  /** In ordinary text, an ampersand stays if there is such a place from it on, and is encoded if not. */
  lemma {:induction false} AmpersandExactly(s: string)
    requires s != "" && s[0] == '&'
    ensures EncodeFirst(s, RAW_TEXT) == if exists p :: 0 <= p && KeptAt(s, p) then "&" else "&amp;"
  {
    hide Found, KeptAt;
    FoundExactly(s);
  }

  /** Four digits are no reference. */
  lemma {:induction false} FourDigitsAreNone(d: string, rest: string)
    requires |d| >= 4 && IsDecimal(d)
    ensures !IsReference("&#" + (d + rest))
  {
    var s := "&#" + (d + rest);
    assert s[2..] == d + rest && forall i :: 0 <= i < |d| ==> s[i + 2] == d[i];
    NumericExactly(s);
    DigitsRunOn(d, rest);
  }

  lemma {:induction false} DigitsRunOn(d: string, rest: string)
    requires forall i :: 0 <= i < |d| ==> '0' <= d[i] <= '9'
    ensures DigitsIn(d + rest, 10) >= |d|
  {
    var s := d + rest;
    assert forall i :: 0 <= i < |d| ==> s[i] == d[i];
    if d != "" {
      assert s[1..] == d[1..] + rest;
      DigitsRunOn(d[1..], rest);
    }
  }

  /** So an ampersand in front of four digits is encoded, if no other ampersand is behind it. */
  lemma {:induction false} LongNumberIsEncoded(d: string, rest: string)
    requires |d| >= 4 && IsDecimal(d) && '&' !in rest
    ensures EncodeFirst("&#" + (d + rest), RAW_TEXT) == "&amp;"
  {
    hide Found, IsReference, EncodeFirst;
    var s := "&#" + (d + rest);
    AmpersandExactly(s);
    FourDigitsAreNone(d, rest);
    forall p: nat ensures !KeptAt(s, p) {
      if p == 0 {
        assert s[0..] == s && s[1] == '#';
      } else if p < |s| {
        assert s[p] != '&' by { NoOther(d, rest, p); }
        StartsWithAmpersand(s[p..]);
      }
    }
  }

  lemma {:induction false} NoOther(d: string, rest: string, p: nat)
    requires IsDecimal(d) && '&' !in rest && 0 < p < 2 + |d| + |rest|
    ensures ("&#" + (d + rest))[p] != '&'
  {
    if p >= 2 + |d| {
      assert ("&#" + (d + rest))[p] == rest[p - 2 - |d|];
    }
  }

  lemma {:induction false} StartsWithAmpersand(s: string)
    ensures IsReference(s) || "&amp;" <= s ==> s != "" && s[0] == '&'
  {
  }

  /** Which characters change under which flags, and into what. */
  lemma {:induction false} ChangesExactly(s: string, f: Flags)
    requires s != ""
    ensures var out := EncodeFirst(s, f);
      && (out == [s[0]] || (s[0], out) in {('&', "&amp;"), ('<', "&lt;"), ('>', "&gt;"), ('\"', "&quot;")})
      && (out == [s[0]] <==>
            && !(s[0] in "<>" && f.angles) && !(s[0] == '\"' && f.quotes)
            && !(s[0] == '&' && if f.amps then !exists p :: 0 <= p && KeptAt(s, p) else f.doubleAmps))
  {
    hide Found, KeptAt;
    FoundExactly(s);
  }
}
