/**
 * Encoding text for HTML: special characters become character references, and e-mail addresses
 * become nothing but references.  `Decode` reads references as section 5.3 of HTML 4.01 does,
 * with any table of entity names that has the four the encoder uses.
 */
module Entities {
  import opened Numbers
  import opened Options

  /** The encoding flags; an ampersand looks at `amps` first. */
  datatype Flags = Flags(amps: bool, doubleAmps: bool, angles: bool, quotes: bool)

  const RAW_TEXT := Flags(true, false, true, true)

  predicate StartsWith(s: string, t: string) {
    t <= s
  }

  // ---------------------------------------------------------------------------------------
  // What the encoder looks for behind an ampersand
  // ---------------------------------------------------------------------------------------

  /** One to `most` digits and a semicolon. */
  predicate NumberAt(s: string, base: Base, most: nat) {
    var n := DigitsIn(s, base);
    1 <= n <= most && n < |s| && s[n] == ';'
  }

  /** `&#[0-9]{1,3};` or `&#[xX][0-9a-fA-F]{1,2};` */
  predicate NumericAt(s: string) {
    && |s| >= 2 && s[0] == '&' && s[1] == '#'
    && (NumberAt(s[2..], 10, 3) || (|s| >= 3 && (s[2] == 'x' || s[2] == 'X') && NumberAt(s[3..], 16, 2)))
  }

  predicate IsSeparator(c: char) {
    c == '\n' || c == '\r' || c == '\U{000C}'
  }

  /**
   * The search for `^(&amp;)|(&#[0-9]{1,3};)|(&#[xX][0-9a-fA-F]{1,2};)` from here on: it is not
   * bound to the ampersand at hand, and `^` holds after every line separator.
   */
  predicate Found(s: string, lineStart: bool) {
    s != "" && ((lineStart && StartsWith(s, "&amp;")) || NumericAt(s) || Found(s[1..], IsSeparator(s[0])))
  }

  function EncodeFirst(s: string, f: Flags): string
    requires s != ""
  {
    if s[0] == '&' && f.amps then if Found(s, true) then "&" else "&amp;"
    else if s[0] == '&' && f.doubleAmps then "&amp;"
    else if s[0] == '<' && f.angles then "&lt;"
    else if s[0] == '>' && f.angles then "&gt;"
    else if s[0] == '\"' && f.quotes then "&quot;"
    else [s[0]]
  }

  function Encode(s: string, f: Flags): string {
    if s == "" then "" else EncodeFirst(s, f) + Encode(s[1..], f)
  }

  lemma {:induction false} EncodeStep(sofar: string, s: string, f: Flags)
    requires s != ""
    ensures sofar + Encode(s, f) == sofar + EncodeFirst(s, f) + Encode(s[1..], f)
  {
    hide EncodeFirst;
  }

  lemma {:induction false} NothingEncodes(f: Flags)
    ensures Encode("", f) == ""
  {
  }

  method EncodeString(src: string, f: Flags) returns (tgt: string)
    ensures tgt == Encode(src, f)
  {
    hide Encode, Found;
    tgt := "";
    assert src[0..] == src;
    NothingEncodes(f);
    for i := 0 to |src|
      invariant tgt + Encode(src[i..], f) == Encode(src, f)
    {
      EncodeStep(tgt, src[i..], f);
      assert src[i..][1..] == src[i + 1..];
      if src[i] == '&' && f.amps {
        if Found(src[i..], true) {
          tgt := tgt + [src[i]];
        } else {
          tgt := tgt + "&amp;";
        }
      } else if src[i] == '&' && f.doubleAmps {
        tgt := tgt + "&amp;";
      } else if src[i] == '<' && f.angles {
        tgt := tgt + "&lt;";
      } else if src[i] == '>' && f.angles {
        tgt := tgt + "&gt;";
      } else if src[i] == '\"' && f.quotes {
        tgt := tgt + "&quot;";
      } else {
        tgt := tgt + [src[i]];
      }
    }
    NothingEncodes(f);
  }

  /** Under its flag, a special character does not appear in the output. */
  lemma {:induction false} SpecialsAreGone(s: string, f: Flags)
    ensures f.angles ==> '<' !in Encode(s, f) && '>' !in Encode(s, f)
    ensures f.quotes ==> '\"' !in Encode(s, f)
  {
    hide Found;
    if s != "" {
      SpecialsAreGone(s[1..], f);
    }
  }

  // ---------------------------------------------------------------------------------------
  // Decoding
  // ---------------------------------------------------------------------------------------

  predicate IsScalar(n: nat) {
    n < 0xD800 || 0xE000 <= n < 0x11_0000
  }

  function CharOf(n: nat): Option<char> {
    if IsScalar(n) then Some(n as char) else None
  }

  type Names = map<string, char>

  predicate HasTheFour(names: Names) {
    && "amp" in names && names["amp"] == '&' && "lt" in names && names["lt"] == '<'
    && "gt" in names && names["gt"] == '>' && "quot" in names && names["quot"] == '\"'
    && forall n :: n in names ==> !StartsWith(n, "#")
  }

  /** The character that `&body;` stands for. */
  function Reference(body: string, names: Names): Option<char> {
    if body in names then Some(names[body])
    else if StartsWith(body, "#") && IsNumber(body[1..], 10) then CharOf(Value(body[1..], 10))
    else if (StartsWith(body, "#x") || StartsWith(body, "#X")) && IsNumber(body[2..], 16) then
      CharOf(Value(body[2..], 16))
    else None
  }

  function ToSemicolon(s: string): (n: nat)
    ensures n <= |s| && (forall i :: 0 <= i < n ==> s[i] != ';') && (n < |s| ==> s[n] == ';')
  {
    if s == "" || s[0] == ';' then 0 else 1 + ToSemicolon(s[1..])
  }

  function Decode(s: string, names: Names): string {
    if s == "" then ""
    else
      var n := ToSemicolon(s);
      if s[0] == '&' && 0 < n < |s| && Reference(s[1..n], names).Some? then
        [Reference(s[1..n], names).value] + Decode(s[n + 1..], names)
      else [s[0]] + Decode(s[1..], names)
  }

  lemma {:induction false} SemicolonIs(s: string, n: nat)
    requires n < |s| && s[n] == ';' && forall i :: 0 <= i < n ==> s[i] != ';'
    ensures ToSemicolon(s) == n
  {
  }

  lemma {:induction false} DecodesReference(body: string, rest: string, names: Names)
    requires ';' !in body && Reference(body, names).Some?
    ensures Decode("&" + body + ";" + rest, names) == [Reference(body, names).value] + Decode(rest, names)
  {
    hide Reference, ToSemicolon;
    var s := "&" + body + ";" + rest;
    SemicolonIs(s, |body| + 1);
    assert s[1..|body| + 1] == body && s[|body| + 2..] == rest;
  }

  lemma {:induction false} DecodesPlain(c: char, rest: string, names: Names)
    requires c != '&'
    ensures Decode([c] + rest, names) == [c] + Decode(rest, names)
  {
    assert ([c] + rest)[1..] == rest;
  }

  /** With doubled ampersands, a reader sees the text that went in. */
  lemma {:induction false} DecodesBack(s: string, f: Flags, names: Names)
    requires HasTheFour(names) && f.doubleAmps && !f.amps
    ensures Decode(Encode(s, f), names) == s
  {
    hide Decode, Reference, Found;
    if s == "" {
      NothingDecodes(names);
    } else {
      DecodesBack(s[1..], f, names);
      var p, rest := EncodeFirst(s, f), Encode(s[1..], f);
      assert [s[0]] + s[1..] == s;
      if p == [s[0]] {
        DecodesPlain(s[0], rest, names);
      } else {
        DecodesCode(s[0], p, rest, names);
      }
    }
  }

  /** One of the four references decodes to its character. */
  lemma {:induction false} DecodesCode(c: char, p: string, rest: string, names: Names)
    requires HasTheFour(names)
    requires (c, p) in {('&', "&amp;"), ('<', "&lt;"), ('>', "&gt;"), ('\"', "&quot;")}
    ensures Decode(p + rest, names) == [c] + Decode(rest, names)
  {
    hide Decode;
    var body := p[1..|p| - 1];
    assert body == "amp" || body == "lt" || body == "gt" || body == "quot";
    assert p == "&" + body + ";";
    DecodesReference(body, rest, names);
  }

  /** The flags under which encoding loses nothing: those of code blocks and code spans. */
  lemma {:induction false} DecodesBackExactly(f: Flags, names: Names)
    requires HasTheFour(names)
    ensures (forall s :: Decode(Encode(s, f), names) == s) <==> f.doubleAmps && !f.amps
  {
    hide Decode, Encode;
    if f.doubleAmps && !f.amps {
      forall s ensures Decode(Encode(s, f), names) == s {
        DecodesBack(s, f, names);
      }
    } else {
      AmpersandIsKept(f);
      NothingDecodes(names);
      DecodesReference("amp", "", names);
      assert "&" + "amp" + ";" + "" == "&amp;";
      assert |Decode("&amp;", names)| == 1;
    }
  }

  lemma {:induction false} EncodesFirst(s: string, f: Flags)
    requires s != ""
    ensures Encode(s, f) == EncodeFirst(s, f) + Encode(s[1..], f)
  {
    hide EncodeFirst;
  }

  lemma {:induction false} LetterStays(c: char, rest: string, f: Flags)
    requires c !in "&<>\""
    ensures Encode([c] + rest, f) == [c] + Encode(rest, f)
  {
    hide Found;
    assert ([c] + rest)[1..] == rest;
  }

  /** A character that the encoder may replace, or that ends a reference. */
  predicate EndsWord(c: char) {
    c == '&' || c == '<' || c == '>' || c == '\"' || c == ';'
  }

  predicate IsWord(s: string) {
    forall i :: 0 <= i < |s| ==> !EndsWord(s[i])
  }

  lemma {:induction false} WordIsKept(b: string, rest: string, f: Flags)
    requires IsWord(b)
    ensures Encode(b + ";" + rest, f) == b + ";" + Encode(rest, f)
  {
    hide Encode;
    if b == "" {
      LetterStays(';', rest, f);
      assert "" + ";" == ";";
    } else {
      WordIsKept(b[1..], rest, f);
      LetterStays(b[0], b[1..] + ";" + rest, f);
      assert b + ";" + rest == [b[0]] + (b[1..] + ";" + rest);
      assert b + ";" + Encode(rest, f) == [b[0]] + (b[1..] + ";" + Encode(rest, f));
    }
  }

  lemma {:induction false} AmpersandIsKept(f: Flags)
    requires f.amps || !f.doubleAmps
    ensures Encode("&amp;", f) == "&amp;"
  {
    hide Encode;
    NothingEncodes(f);
    WordIsKept("amp", "", f);
    assert Found("&amp;", true);
    assert "&amp;"[1..] == "amp" + ";" + "";
    EncodesFirst("&amp;", f);
    assert "&" + ("amp" + ";" + "") == "&amp;";
  }

  lemma {:induction false} NothingDecodes(names: Names)
    ensures Decode("", names) == ""
  {
  }
}
