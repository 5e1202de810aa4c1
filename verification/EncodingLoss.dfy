/**
 * Which texts decode to themselves after encoding, text by text: those in which no ampersand that
 * the encoder keeps starts a reference.
 */
module EncodingLoss {
  import opened Entities
  import opened Numbers
  import opened Options

  /** The names are words, as all those of section 24 of HTML 4.01 are. */
  predicate NamesAreWords(names: Names) {
    forall n :: n in names ==> IsWord(n)
  }

  /** The text starts with a reference. */
  predicate RefersAt(s: string, names: Names) {
    && s != "" && s[0] == '&'
    && var n := ToSemicolon(s); 0 < n < |s| && Reference(s[1..n], names).Some?
  }

  /** The text starts with an ampersand that is written as it is. */
  predicate Kept(s: string, f: Flags) {
    s != "" && s[0] == '&' && if f.amps then Found(s, true) else !f.doubleAmps
  }

  predicate Misread(s: string, f: Flags, names: Names) {
    Kept(s, f) && RefersAt(s, names)
  }

  predicate NothingMisread(s: string, f: Flags, names: Names) {
    forall i :: 0 <= i <= |s| ==> !Misread(s[i..], f, names)
  }

  lemma {:induction false} MisreadStep(s: string, f: Flags, names: Names)
    requires s != ""
    ensures NothingMisread(s, f, names) <==> !Misread(s, f, names) && NothingMisread(s[1..], f, names)
  {
    hide Misread;
    assert s[0..] == s;
    if NothingMisread(s, f, names) {
      forall i | 0 <= i <= |s| - 1 ensures !Misread(s[1..][i..], f, names) {
        assert s[1..][i..] == s[i + 1..];
      }
    }
    if NothingMisread(s[1..], f, names) {
      forall i | 0 < i <= |s| ensures !Misread(s[i..], f, names) {
        assert s[1..][i - 1..] == s[i..];
      }
    }
  }

  lemma {:induction false} NumberIsWord(s: string, base: Base)
    requires IsNumber(s, base)
    ensures IsWord(s)
  {
  }

  /** What stands in a reference is a word. */
  lemma {:induction false} ReferenceIsWord(body: string, names: Names)
    requires NamesAreWords(names) && Reference(body, names).Some?
    ensures IsWord(body)
  {
    hide IsNumber, Value, CharOf;
    if body !in names {
      if StartsWith(body, "#") && IsNumber(body[1..], 10) {
        NumberIsWord(body[1..], 10);
        assert body == "#" + body[1..];
      } else {
        NumberIsWord(body[2..], 16);
        assert body == body[..2] + body[2..];
      }
    }
  }

  lemma {:induction false} FirstIsKept(s: string, f: Flags)
    requires Encode(s, f) != "" && Encode(s, f)[0] != '&'
    ensures s != "" && Encode(s, f) == [s[0]] + Encode(s[1..], f)
  {
    hide Found;
  }

  /** A word with a semicolon behind it, in the encoded text, stands in the text as well. */
  lemma {:induction false} WordWasThere(s: string, b: string, f: Flags)
    requires IsWord(b) && b + ";" <= Encode(s, f)
    ensures b + ";" <= s
  {
    hide Encode;
    var e := Encode(s, f);
    var w := b + ";";
    assert e[0] == w[0];
    FirstIsKept(s, f);
    if b != "" {
      assert b[1..] + ";" == w[1..] && w[1..] <= e[1..] && e[1..] == Encode(s[1..], f);
      WordWasThere(s[1..], b[1..], f);
      assert w == [s[0]] + w[1..] && s == [s[0]] + s[1..];
    }
  }

  lemma {:induction false} ReferenceAt(s: string, b: string, names: Names)
    requires "&" + b + ";" <= s && IsWord(b) && Reference(b, names).Some?
    ensures RefersAt(s, names) && ToSemicolon(s) == |b| + 1 && s[1..|b| + 1] == b
  {
    hide Reference;
    var w := "&" + b + ";";
    assert forall i :: 0 <= i < |w| ==> s[i] == w[i];
    SemicolonIs(s, |b| + 1);
    assert s[1..|b| + 1] == b;
  }

  lemma {:induction false} ReferenceParts(s: string, names: Names) returns (b: string, rest: string)
    requires RefersAt(s, names) && NamesAreWords(names)
    ensures s == "&" + b + ";" + rest && IsWord(b) && Reference(b, names).Some? && |rest| == |s| - |b| - 2
  {
    hide Reference;
    var n := ToSemicolon(s);
    b, rest := s[1..n], s[n + 1..];
    ReferenceIsWord(b, names);
    assert s == [s[0]] + s[1..n] + [s[n]] + s[n + 1..];
  }

  lemma {:induction false} KeptEncodes(s: string, f: Flags)
    requires Kept(s, f)
    ensures Encode(s, f) == "&" + Encode(s[1..], f)
  {
    hide Found;
  }

  lemma {:induction false} KeptIsAmpersand(s: string, f: Flags)
    requires Kept(s, f)
    ensures s != "" && s == "&" + s[1..]
  {
  }

  /** A kept ampersand that starts no reference starts none in the encoded text. */
  lemma {:induction false} NoNewReference(s: string, f: Flags, names: Names)
    requires NamesAreWords(names) && Kept(s, f) && !RefersAt(s, names)
    ensures !RefersAt(Encode(s, f), names)
  {
    hide RefersAt, Encode, Reference, Kept, NamesAreWords, IsWord;
    var e := Encode(s, f);
    KeptIsAmpersand(s, f);
    KeptEncodes(s, f);
    if RefersAt(e, names) {
      var b, rest := ReferenceParts(e, names);
      assert e[1..] == b + ";" + rest;
      WordWasThere(s[1..], b, f);
      ReferenceAt(s, b, names);
    }
  }

  /** Where nothing is misread, one character is decoded. */
  lemma {:induction false} DecodesFirst(s: string, f: Flags, names: Names)
    requires HasTheFour(names) && NamesAreWords(names) && s != "" && !Misread(s, f, names)
    ensures Decode(Encode(s, f), names) == [s[0]] + Decode(Encode(s[1..], f), names)
  {
    hide Decode, Found, HasTheFour, NamesAreWords, RefersAt, Encode;
    EncodesFirst(s, f);
    var p, rest := EncodeFirst(s, f), Encode(s[1..], f);
    if p != [s[0]] {
      DecodesCode(s[0], p, rest, names);
    } else if s[0] != '&' {
      DecodesPlain(s[0], rest, names);
    } else {
      NoNewReference(s, f, names);
      DecodesAmpersand(rest, names);
    }
  }

  lemma {:induction false} DecodesAmpersand(rest: string, names: Names)
    requires !RefersAt("&" + rest, names)
    ensures Decode("&" + rest, names) == "&" + Decode(rest, names)
  {
    hide Reference, ToSemicolon;
    assert ("&" + rest)[1..] == rest;
  }

  /** Where something is misread, a whole reference becomes one character. */
  lemma {:induction false} MisreadShortens(s: string, f: Flags, names: Names) returns (rest: string)
    requires NamesAreWords(names) && Misread(s, f, names)
    ensures |rest| + 2 <= |s|
    ensures |Decode(Encode(s, f), names)| == 1 + |Decode(Encode(rest, f), names)|
  {
    hide RefersAt, Encode, Reference, Kept, NamesAreWords, Decode;
    var b;
    b, rest := ReferenceParts(s, names);
    KeptEncodes(s, f);
    assert s[1..] == b + ";" + rest;
    WordIsKept(b, rest, f);
    assert Encode(s, f) == "&" + b + ";" + Encode(rest, f);
    WordHasNoEnd(b);
    DecodesReference(b, Encode(rest, f), names);
  }

  lemma {:induction false} WordHasNoEnd(b: string)
    requires IsWord(b)
    ensures ';' !in b
  {
  }

  /**
   * Whatever the flags, an encoded text decodes to itself if and only if nowhere in it an
   * ampersand that is kept starts a reference; else it decodes to a shorter text.
   */
  lemma {:induction false} TextDecodesBackExactly(s: string, f: Flags, names: Names)
    requires HasTheFour(names) && NamesAreWords(names)
    ensures if NothingMisread(s, f, names) then Decode(Encode(s, f), names) == s
            else |Decode(Encode(s, f), names)| < |s|
    decreases |s|
  {
    hide Decode, Encode, Misread, NothingMisread, HasTheFour, NamesAreWords;
    if s == "" {
      NothingEncodes(f);
      NothingDecodes(names);
      NothingIsMisread(f, names);
    } else {
      MisreadStep(s, f, names);
      if Misread(s, f, names) {
        var rest := MisreadShortens(s, f, names);
        TextDecodesBackExactly(rest, f, names);
      } else {
        DecodesFirst(s, f, names);
        TextDecodesBackExactly(s[1..], f, names);
        assert s == [s[0]] + s[1..];
      }
    }
  }

  lemma {:induction false} NothingIsMisread(f: Flags, names: Names)
    ensures NothingMisread("", f, names)
  {
  }
}
