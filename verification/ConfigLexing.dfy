/**
 * What the tokenizer reads, character by character: blanks, braces and semicolons, comments,
 * plain tokens, and quoted tokens with their escapes.
 */
module ConfigLexing {
  import opened ConfigRoundTrip
  import opened ConfigSpec
  import opened Sequences

  /** No character of `w` is one of `stops`. */
  predicate Without(w: string, stops: string) {
    forall i :: 0 <= i < |w| ==> w[i] !in stops
  }

  lemma {:induction false} WithoutRest(w: string, stops: string)
    requires w != "" && Without(w, stops)
    ensures w[0] !in stops && Without(w[1..], stops)
  {
  }

  lemma {:induction false} FirstOf(c: char, w: string, behind: string)
    ensures var s := [c] + w + behind; s[0] == c && s[1..] == w + behind
  {
  }

  // ---------------------------------------------------------------------------------------
  // Blanks, braces and semicolons
  // ---------------------------------------------------------------------------------------

  lemma {:induction false} BlanksAreSkipped(c: char, s: string)
    requires c in " \t\n\r"
    ensures NextToken([c] + s) == NextToken(s)
  {
    SkipBlank(c, s);
  }

  lemma {:induction false} PunctuationIsRead(s: string)
    ensures NextToken("{" + s) == Lexed(Token(START_BLOCK, "{"), s)
    ensures NextToken("}" + s) == Lexed(Token(END_BLOCK, "}"), s)
    ensures NextToken(";" + s) == Lexed(Token(STATEMENT_END, ";"), s)
    ensures NextToken("").token.kind == EOF
  {
    assert ("{" + s)[1..] == s && ("}" + s)[1..] == s && (";" + s)[1..] == s;
  }

  // ---------------------------------------------------------------------------------------
  // Comments
  // ---------------------------------------------------------------------------------------

  lemma {:induction false} CommentRun(v: string, w: string, behind: string)
    requires Without(w, "\n\r")
    ensures Lex(IN_COMMENT, v, w + behind) == Lex(IN_COMMENT, v + w, behind)
    decreases w
  {
    if w == "" {
      assert w + behind == behind && v + w == v;
    } else {
      WithoutRest(w, "\n\r");
      assert (w + behind)[0] == w[0] && (w + behind)[1..] == w[1..] + behind && v + [w[0]] + w[1..] == v + w;
      CommentRun(v + [w[0]], w[1..], behind);
    }
  }

  lemma {:induction false} CommentStarts(s: string)
    ensures NextToken("#" + s) == Lex(IN_COMMENT, "#", s)
  {
    assert ("#" + s)[1..] == s;
  }

  /** A comment is all of its line, whatever is in it; without a line end behind it, it ends the file. */
  lemma {:induction false} CommentIsRead(w: string, e: char, rest: string)
    requires Without(w, "\n\r") && e in "\n\r"
    ensures NextToken("#" + w + [e] + rest) == Lexed(Token(COMMENT, "#" + w), rest)
    ensures NextToken("#" + w) == Lexed(Token(EOF, "#" + w), "")
  {
    hide NextToken;
    Regroup("#", w, [e]);
    Regroup("#", w + [e], rest);
    Regroup(w, [e], rest);
    CommentStarts(w + ([e] + rest));
    CommentRun("#", w, [e] + rest);
    assert ([e] + rest)[0] == e && ([e] + rest)[1..] == rest;
    CommentStarts(w);
    CommentRun("#", w, "");
    assert w + "" == w;
  }

  /** A comment in front of a text changes nothing. */
  lemma {:induction false} CommentInFront(w: string, e: char, rest: string)
    requires Without(w, "\n\r") && e in "\n\r"
    ensures ParseText("#" + w + [e] + rest) == ParseText(rest)
  {
    hide NextToken, BuildAll;
    var s := "#" + w + [e] + rest;
    CommentIsRead(w, e, rest);
    assert Tokens(s) == [Token(COMMENT, "#" + w)] + Tokens(rest);
    CommentTaken("#" + w, Tokens(rest));
  }

  lemma {:induction false} CommentTaken(w: string, ts: seq<Token>)
    ensures BuildAll(Begin(), [Token(COMMENT, w)] + ts) == BuildAll(Begin(), ts)
  {
    assert ([Token(COMMENT, w)] + ts)[1..] == ts;
  }

  // ---------------------------------------------------------------------------------------
  // Plain tokens
  // ---------------------------------------------------------------------------------------

  lemma {:induction false} PlainRun(v: string, w: string, behind: string)
    requires Without(w, " \t\n;{}")
    ensures Lex(IN_NORMAL, v, w + behind) == Lex(IN_NORMAL, v + w, behind)
    decreases w
  {
    if w == "" {
      assert w + behind == behind && v + w == v;
    } else {
      WithoutRest(w, " \t\n;{}");
      assert (w + behind)[0] == w[0] && (w + behind)[1..] == w[1..] + behind && v + [w[0]] + w[1..] == v + w;
      PlainRun(v + [w[0]], w[1..], behind);
    }
  }

  lemma {:induction false} PlainStarts(c: char, s: string)
    requires c !in " \t\n\r;{}#\"\'"
    ensures NextToken([c] + s) == Lex(IN_NORMAL, [c], s)
  {
    assert ([c] + s)[1..] == s && "" + [c] == [c];
  }

  /**
   * A plain token starts with no blank, brace, semicolon, quote or number sign, and goes on up to a
   * blank that is no carriage return, a brace or a semicolon; without one it ends the file.
   */
  lemma {:induction false} PlainTokenIsRead(c: char, w: string, e: char, rest: string)
    requires c !in " \t\n\r;{}#\"\'" && Without(w, " \t\n;{}") && e in " \t\n;{}"
    ensures NextToken([c] + w + [e] + rest) == Lexed(Token(NORMAL, [c] + w), [e] + rest)
    ensures NextToken([c] + w) == Lexed(Token(EOF, [c] + w), "")
  {
    hide NextToken;
    Regroup([c], w, [e]);
    Regroup([c], w + [e], rest);
    Regroup(w, [e], rest);
    PlainStarts(c, w + ([e] + rest));
    PlainRun([c], w, [e] + rest);
    assert ([e] + rest)[0] == e;
    PlainStarts(c, w);
    PlainRun([c], w, "");
    assert w + "" == w;
  }

  // ---------------------------------------------------------------------------------------
  // Quoted tokens
  // ---------------------------------------------------------------------------------------

  predicate IsQuote(q: char) {
    q == '\'' || q == '\"'
  }

  /** Characters that stand for themselves in a token quoted with `q`. */
  lemma {:induction false} QuotedRun(state: LexState, q: char, v: string, w: string, behind: string)
    requires IsQuoted(state) && q == QuoteOf(state) && v != "" && Without(w, [q, '\\'])
    ensures Lex(state, v, w + behind) == Lex(state, v + w, behind)
    decreases w
  {
    if w == "" {
      assert w + behind == behind && v + w == v;
    } else {
      WithoutRest(w, [q, '\\']);
      assert w[0] != [q, '\\'][0] && w[0] != [q, '\\'][1];
      assert (w + behind)[0] == w[0] && (w + behind)[1..] == w[1..] + behind && v + [w[0]] + w[1..] == v + w;
      QuotedRun(state, q, v + [w[0]], w[1..], behind);
    }
  }

  /** The state of a token that is quoted with `q`. */
  function InQuotes(q: char): (state: LexState)
    requires IsQuote(q)
    ensures IsQuoted(state) && QuoteOf(state) == q
  {
    if q == '\'' then SINGLE_QUOTE else DOUBLE_QUOTE
  }

  lemma {:induction false} QuoteStarts(q: char, s: string)
    requires IsQuote(q)
    ensures NextToken([q] + s) == Lex(InQuotes(q), [q], s)
  {
    assert ([q] + s)[1..] == s;
  }

  /** A quote before a blank or a semicolon closes, whatever is in front of it. */
  lemma {:induction false} QuoteCloses(state: LexState, q: char, v: string, e: char, rest: string)
    requires IsQuoted(state) && q == QuoteOf(state) && v != "" && e in " \t\n;"
    ensures Lex(state, v, [q] + ([e] + rest)) == Lexed(Token(NORMAL, v + [q]), [e] + rest)
  {
    assert ([q] + ([e] + rest))[1..] == [e] + rest;
  }

  /** A quoted token without backslashes is read with its quotes. */
  lemma {:induction false} QuotedTokenIsRead(q: char, w: string, e: char, rest: string)
    requires IsQuote(q) && Without(w, [q, '\\']) && e in " \t\n;"
    ensures NextToken([q] + (w + ([q] + ([e] + rest)))) == Lexed(Token(NORMAL, [q] + w + [q]), [e] + rest)
    ensures NextToken([q] + w).token.kind == ERROR
  {
    hide NextToken, Lex;
    QuoteStarts(q, w + ([q] + ([e] + rest)));
    QuotedRun(InQuotes(q), q, [q], w, [q] + ([e] + rest));
    QuoteCloses(InQuotes(q), q, [q] + w, e, rest);
    QuoteStarts(q, w);
    QuotedRun(InQuotes(q), q, [q], w, "");
    assert w + "" == w;
    NeverClosed(InQuotes(q), [q] + w);
  }

  lemma {:induction false} NeverClosed(state: LexState, v: string)
    requires IsQuoted(state) && v != ""
    ensures Lex(state, v, "").token.kind == ERROR
  {
  }

  /** A quote that neither a blank nor a semicolon follows is an error, but for one behind a backslash. */
  lemma {:induction false} QuoteInsideFails(q: char, w: string, c: char, rest: string)
    requires IsQuote(q) && Without(w, [q, '\\']) && c !in " \t\n;"
    ensures NextToken([q] + (w + ([q] + ([c] + rest)))).token.kind == ERROR
  {
    hide NextToken;
    QuoteStarts(q, w + ([q] + ([c] + rest)));
    QuotedRun(InQuotes(q), q, [q], w, [q] + ([c] + rest));
    assert ([q] + ([c] + rest))[1..] == [c] + rest;
    var v := [q] + w;
    assert w != "" ==> v[|v| - 1] == w[|w| - 1] && w[|w| - 1] != [q, '\\'][1];
  }

  /** A quote behind a backslash takes its place. */
  lemma {:induction false} EscapedQuoteIsRead(q: char, w: string, c: char, x: string, e: char, rest: string)
    requires IsQuote(q) && Without(w, [q, '\\']) && c !in " \t\n;\\" && c != q && Without(x, [q, '\\'])
    requires e in " \t\n;"
    ensures NextToken([q] + (w + ("\\" + ([q] + ([c] + (x + ([q] + ([e] + rest)))))))) ==
      Lexed(Token(NORMAL, [q] + w + [q] + [c] + x + [q]), [e] + rest)
  {
    hide NextToken, Lex;
    var tail := [q] + ([e] + rest);
    QuoteStarts(q, w + ("\\" + ([q] + ([c] + (x + tail)))));
    QuotedRun(InQuotes(q), q, [q], w, "\\" + ([q] + ([c] + (x + tail))));
    EscapeTaken(InQuotes(q), q, [q] + w, c, x + tail);
    QuotedRun(InQuotes(q), q, [q] + w + [q] + [c], x, tail);
    QuoteCloses(InQuotes(q), q, [q] + w + [q] + [c] + x, e, rest);
  }

  lemma {:induction false} EscapeTaken(state: LexState, q: char, v: string, c: char, s: string)
    requires IsQuoted(state) && q == QuoteOf(state) && v != "" && c !in " \t\n;\\" && c != q
    ensures Lex(state, v, "\\" + ([q] + ([c] + s))) == Lex(state, v + [q] + [c], s)
  {
    var a, b := [q] + ([c] + s), [c] + s;
    assert ("\\" + a)[0] == '\\' && ("\\" + a)[1..] == a && a[0] == q && a[1..] == b && b[0] == c && b[1..] == s;
    var u := v + ['\\'];
    assert u[|u| - 1] == '\\' && u[..|u| - 1] == v;
    assert Lex(state, v, "\\" + a) == Lex(state, u, a);
    assert Lex(state, u, a) == Lex(state, v + [q], b);
  }

  /** Two backslashes in quotes are read as one. */
  lemma {:induction false} BackslashesCollapse(q: char, w: string, s: string)
    requires IsQuote(q) && Without(w, [q, '\\'])
    ensures NextToken([q] + (w + ("\\" + ("\\" + s)))) == NextToken([q] + (w + ("\\" + s)))
  {
    hide NextToken;
    QuoteStarts(q, w + ("\\" + ("\\" + s)));
    QuoteStarts(q, w + ("\\" + s));
    QuotedRun(InQuotes(q), q, [q], w, "\\" + ("\\" + s));
    QuotedRun(InQuotes(q), q, [q], w, "\\" + s);
    assert ("\\" + ("\\" + s))[1..] == "\\" + s && ("\\" + s)[0] == '\\';
  }
}
