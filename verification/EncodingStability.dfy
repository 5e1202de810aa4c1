/**
 * When encoding ordinary text a second time changes nothing.  Whether an ampersand is encoded
 * depends on all the text behind it, so this is a property of the whole string.
 */
module EncodingStability {
  import opened Entities
  import opened Numbers

  function Raw(s: string): string {
    Encode(s, RAW_TEXT)
  }

  predicate Special(c: char) {
    c == '&' || c == '<' || c == '>' || c == '\"'
  }

  predicate IsBracketOrQuote(c: char) {
    c == '<' || c == '>' || c == '\"'
  }

  /** No angle bracket and no quote. */
  predicate Bare(s: string) {
    forall i :: 0 <= i < |s| ==> !IsBracketOrQuote(s[i])
  }

  lemma {:induction false} BareStep(s: string)
    requires s != ""
    ensures Bare(s) <==> !IsBracketOrQuote(s[0]) && Bare(s[1..])
  {
    forall i | 0 <= i < |s| && Bare(s[1..]) ensures i > 0 ==> !IsBracketOrQuote(s[i]) {
      assert i > 0 ==> s[1..][i - 1] == s[i];
    }
  }

  /** Somewhere in `s` an ampersand starts a line or a numeric reference. */
  predicate Shield(s: string, lineStart: bool) {
    s != "" && ((s[0] == '&' && (lineStart || NumericAt(s))) || Shield(s[1..], IsSeparator(s[0])))
  }

  /** Behind every angle bracket and quote, an ampersand starts a line or a numeric reference. */
  predicate Stable(s: string) {
    s == "" || ((IsBracketOrQuote(s[0]) ==> Shield(s[1..], false)) && Stable(s[1..]))
  }

  /** No ampersand of `s` would be encoded. */
  predicate AllKept(s: string) {
    s == "" || ((s[0] == '&' ==> Found(s, true)) && AllKept(s[1..]))
  }

  /** The two strings agree up to their first special characters. */
  predicate SameHead(u: string, v: string) {
    if u == "" || Special(u[0]) then v == "" || Special(v[0])
    else v != "" && v[0] == u[0] && SameHead(u[1..], v[1..])
  }

  lemma {:induction false} EncodingKeepsHead(s: string)
    ensures SameHead(s, Raw(s))
  {
    if s != "" {
      EncodingKeepsHead(s[1..]);
      assert !Special(s[0]) ==> Raw(s)[1..] == Raw(s[1..]);
    }
  }

  lemma {:induction false} SameNumber(u: string, v: string, base: Base)
    requires SameHead(u, v)
    ensures DigitsIn(u, base) == DigitsIn(v, base)
    ensures SameHead(u[DigitsIn(u, base)..], v[DigitsIn(u, base)..])
  {
    if u != "" && !Special(u[0]) && DigitValue(u[0]) < base {
      SameNumber(u[1..], v[1..], base);
      var n := DigitsIn(u, base);
      assert u[1..][n - 1..] == u[n..] && v[1..][n - 1..] == v[n..];
    } else {
      assert u[0..] == u && v[0..] == v;
    }
  }

  lemma {:induction false} SameNumberAt(u: string, v: string, base: Base, most: nat)
    requires SameHead(u, v)
    ensures NumberAt(u, base, most) <==> NumberAt(v, base, most)
  {
    SameNumber(u, v, base);
    var n := DigitsIn(u, base);
    assert n < |u| ==> u[n..][0] == u[n];
    assert n < |v| ==> v[n..][0] == v[n];
  }

  /** What makes `"&" + u` a numeric reference. */
  predicate NumericTail(u: string) {
    && u != "" && u[0] == '#'
    && var t := u[1..];
       NumberAt(t, 10, 3) || (t != "" && (t[0] == 'x' || t[0] == 'X') && NumberAt(t[1..], 16, 2))
  }

  lemma {:induction false} NumericIsTail(u: string)
    ensures NumericAt("&" + u) <==> NumericTail(u)
  {
    hide NumberAt;
    var s := "&" + u;
    if u != "" && u[0] == '#' {
      assert s[2..] == u[1..];
      if u[1..] != "" {
        assert s[3..] == u[1..][1..];
      }
    }
  }

  lemma {:induction false} SameNumeric(u: string, v: string)
    requires SameHead(u, v)
    ensures NumericAt("&" + u) <==> NumericAt("&" + v)
  {
    hide NumericAt, NumberAt;
    NumericIsTail(u);
    NumericIsTail(v);
    if u != "" && u[0] == '#' {
      SameNumberAt(u[1..], v[1..], 10, 3);
      if u[1..] != "" && !Special(u[1..][0]) {
        SameNumberAt(u[1..][1..], v[1..][1..], 16, 2);
      }
    }
  }

  lemma {:induction false} SkipPlain(p: string, s: string, lineStart: bool)
    requires forall i :: 0 <= i < |p| ==> p[i] != '&' && !IsSeparator(p[i])
    ensures Found(p + s, lineStart) <==> Found(s, lineStart && p == "")
    ensures AllKept(p + s) <==> AllKept(s)
  {
    hide NumericAt;
    if p == "" {
      assert p + s == s;
    } else {
      assert (p + s)[1..] == p[1..] + s;
      NoReference(p + s);
      SkipPlain(p[1..], s, false);
    }
  }

  /** Where the first character becomes a reference, a search passes over it. */
  lemma {:induction false} FirstIsReference(s: string)
    requires s != "" && EncodeFirst(s, RAW_TEXT) != [s[0]]
    ensures var out, rest := Raw(s), Raw(s[1..]);
      && !NumericAt(out)
      && (StartsWith(out, "&amp;") <==> s[0] == '&')
      && (forall b :: Found(out, b) <==> (b && s[0] == '&') || Found(rest, false))
      && (AllKept(out) <==> Found(out, true) && AllKept(rest))
  {
    hide NumericAt, Found, AllKept;
    var p, rest := EncodeFirst(s, RAW_TEXT), Raw(s[1..]);
    var out := p + rest;
    NotNumeric(p, rest);
    assert out[0] == '&' && out[1..] == p[1..] + rest;
    SkipPlain(p[1..], rest, false);
    FoundAtReference(out);
  }

  lemma {:induction false} FoundAtReference(out: string)
    requires out != "" && out[0] == '&' && !NumericAt(out)
    ensures forall b :: Found(out, b) <==> (b && StartsWith(out, "&amp;")) || Found(out[1..], false)
    ensures AllKept(out) <==> Found(out, true) && AllKept(out[1..])
  {
    hide NumericAt, StartsWith;
  }

  /** A search that succeeds on the text succeeds on the encoded text. */
  lemma {:induction false} EncodingKeepsFound(s: string, lineStart: bool)
    requires Found(s, lineStart)
    ensures Found(Raw(s), lineStart)
  {
    hide NumericAt;
    var out, rest := Raw(s), Raw(s[1..]);
    if s[0] == '&' {
      AmpersandKept(s);
      if lineStart && StartsWith(s, "&amp;") {
        AmpersandStays(s[1..], rest);
      } else if !NumericAt(s) {
        EncodingKeepsFound(s[1..], false);
      }
    } else {
      NoReference(s);
      EncodingKeepsFound(s[1..], IsSeparator(s[0]));
      if EncodeFirst(s, RAW_TEXT) == [s[0]] {
        assert out[1..] == rest;
      } else {
        FirstIsReference(s);
      }
    }
  }

  lemma {:induction false} AmpersandKept(s: string)
    requires s != "" && s[0] == '&' && Found(s, true)
    ensures var out, rest := Raw(s), Raw(s[1..]);
      && s == "&" + s[1..] && out == "&" + rest && out[1..] == rest
      && SameHead(s[1..], rest) && (NumericAt(out) <==> NumericAt(s))
  {
    hide NumericAt, Found, SameHead;
    EncodingKeepsHead(s[1..]);
    SameNumeric(s[1..], Raw(s[1..]));
  }

  lemma {:induction false} SamePrefix(p: string, u: string, v: string)
    requires SameHead(u, v) && p <= u && forall i :: 0 <= i < |p| ==> !Special(p[i])
    ensures p <= v
  {
    if p != "" {
      assert u[0] == p[0] && p[1..] <= u[1..];
      SamePrefix(p[1..], u[1..], v[1..]);
    }
  }

  lemma {:induction false} AmpersandStays(u: string, v: string)
    requires SameHead(u, v) && StartsWith("&" + u, "&amp;")
    ensures StartsWith("&" + v, "&amp;")
  {
    assert u[..4] == ("&" + u)[1..5] == "amp;";
    SamePrefix("amp;", u, v);
    assert "&amp;" == "&" + "amp;";
  }

  lemma {:induction false} NoReference(s: string)
    requires s != "" && s[0] != '&'
    ensures !NumericAt(s) && !StartsWith(s, "&amp;")
  {
  }

  // ---------------------------------------------------------------------------------------
  // What the second pass sees
  // ---------------------------------------------------------------------------------------

  lemma {:induction false} FoundIsShield(s: string, lineStart: bool)
    ensures Found(Raw(s), lineStart) <==> Shield(s, lineStart)
  {
    hide NumericAt;
    if s != "" {
      FoundIsShield(s[1..], IsSeparator(s[0]));
      if EncodeFirst(s, RAW_TEXT) != [s[0]] {
        FirstIsReference(s);
        assert s[0] == '&' ==> !Found(s, true);
      } else if s[0] == '&' {
        AmpersandKept(s);
        EncodingKeepsFound(s, true);
      } else {
        NoReference(Raw(s));
        assert Raw(s)[1..] == Raw(s[1..]);
      }
    }
  }

  lemma {:induction false} NotNumeric(p: string, rest: string)
    requires p in ["&amp;", "&lt;", "&gt;", "&quot;"]
    ensures !NumericAt(p + rest)
    ensures StartsWith(p + rest, "&amp;") <==> p == "&amp;"
  {
    assert (p + rest)[0] == p[0] && (p + rest)[1] == p[1];
    assert StartsWith(p + rest, "&amp;") ==> (p + rest)[1] == "&amp;"[1];
  }

  lemma {:induction false} KeptIsStable(s: string)
    ensures AllKept(Raw(s)) <==> Stable(s)
  {
    hide NumericAt, Found;
    if s != "" {
      KeptIsStable(s[1..]);
      if EncodeFirst(s, RAW_TEXT) != [s[0]] {
        FirstIsReference(s);
        FoundIsShield(s[1..], false);
      } else {
        assert Raw(s)[1..] == Raw(s[1..]);
        if s[0] == '&' {
          EncodingKeepsFound(s, true);
        }
      }
    }
  }

  lemma {:induction false} LongerOut(s: string)
    ensures |Raw(s)| >= |s|
    ensures Raw(s) == s <==> AllKept(s) && Bare(s)
  {
    hide Found;
    if s != "" {
      LongerOut(s[1..]);
      BareStep(s);
      assert s == [s[0]] + s[1..];
      if |EncodeFirst(s, RAW_TEXT)| == 1 {
        assert EncodeFirst(s, RAW_TEXT) == [s[0]];
        assert Raw(s)[1..] == Raw(s[1..]);
      }
    }
  }

  /**
   * Encoding twice is encoding once, if and only if behind every angle bracket and quote of the
   * text an ampersand starts a line or a numeric reference: only then does the second pass let
   * the new references be.  In particular it is for text without angle brackets and quotes.
   */
  lemma {:induction false} StableExactly(s: string)
    ensures Raw(Raw(s)) == Raw(s) <==> Stable(s)
    ensures Bare(s) ==> Stable(s)
  {
    hide Found, NumericAt;
    KeptIsStable(s);
    LongerOut(Raw(s));
    SpecialsAreGone(s, RAW_TEXT);
    assert Bare(Raw(s));
    if Bare(s) {
      PlainIsStable(s);
    }
  }

  lemma {:induction false} PlainIsStable(s: string)
    requires Bare(s)
    ensures Stable(s)
  {
    if s != "" {
      BareStep(s);
      PlainIsStable(s[1..]);
    }
  }

  /** An angle bracket by itself is encoded again and again. */
  lemma {:induction false} BracketIsNotStable()
    ensures Raw(Raw("<")) != Raw("<")
  {
    assert "<"[1..] == "";
    StableExactly("<");
  }
}
