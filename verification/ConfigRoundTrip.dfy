/**
 * Printing a configuration and parsing the text gives the configuration back, exactly when it is
 * printable; and what a token stream builds flattens to the tokens that were read.
 */
module ConfigRoundTrip {
  import opened ConfigSpec
  import opened Options
  import opened Sequences

  // ---------------------------------------------------------------------------------------
  // Which tokens survive
  // ---------------------------------------------------------------------------------------

  predicate PlainToken(t: string) {
    && t != "" && t[0] !in "#\"\'\r"
    && forall i :: 0 <= i < |t| ==> !EndsNormal(t[i])
  }

  /** No quote inside, and no two backslashes in a row. */
  predicate CleanBody(w: string, q: char) {
    && (forall i :: 0 <= i < |w| ==> w[i] != q)
    && (forall i :: 0 <= i < |w| - 1 ==> !(w[i] == '\\' && w[i + 1] == '\\'))
  }

  predicate QuotedToken(t: string, q: char) {
    |t| >= 2 && t[0] == q && t[|t| - 1] == q && CleanBody(t[1..|t| - 1], q)
  }

  predicate StableToken(t: string) {
    PlainToken(t) || QuotedToken(t, '\"') || QuotedToken(t, '\'')
  }

  /** What the printer puts after a token. */
  predicate Follows(d: char) {
    d == ' ' || d == ';'
  }

  lemma {:induction false} LexNormalRun(v: string, w: string, d: char, rest: string)
    requires EndsNormal(d)
    ensures (forall i :: 0 <= i < |w| ==> !EndsNormal(w[i])) ==>
      Lex(IN_NORMAL, v, w + [d] + rest) == Lexed(Token(NORMAL, v + w), [d] + rest)
    ensures Lex(IN_NORMAL, v, w + [d] + rest).token == Token(NORMAL, v + w) ==>
      forall i :: 0 <= i < |w| ==> !EndsNormal(w[i])
    decreases w
  {
    var s := w + [d] + rest;
    if w == "" {
      assert s == [d] + rest && v + w == v;
    } else {
      assert s[0] == w[0] && s[1..] == w[1..] + [d] + rest;
      if !EndsNormal(w[0]) {
        LexNormalRun(v + [w[0]], w[1..], d, rest);
        assert v + [w[0]] + w[1..] == v + w;
        assert forall i :: 1 <= i < |w| ==> w[i] == w[1..][i - 1];
      } else {
        assert |v + w| > |v|;
      }
    }
  }

  lemma {:induction false} LexQuotedRun(state: LexState, v: string, w: string, d: char, rest: string)
    requires IsQuoted(state) && v != "" && Follows(d) && CleanBody(w, QuoteOf(state))
    ensures Lex(state, v, w + [QuoteOf(state), d] + rest) == Lexed(Token(NORMAL, v + w + [QuoteOf(state)]), [d] + rest)
    decreases w
  {
    var q := QuoteOf(state);
    var s := w + [q, d] + rest;
    if w == "" {
      assert s[0] == q && s[1..] == [d] + rest && v + w == v;
    } else {
      assert s[0] == w[0] && s[1..] == w[1..] + [q, d] + rest;
      assert s[1..][0] == if |w| > 1 then w[1] else q;
      LexQuotedRun(state, v + [w[0]], w[1..], d, rest);
      assert v + [w[0]] + w[1..] == v + w;
    }
  }

  lemma {:induction false} StableIsRead(t: string, d: char, rest: string)
    requires StableToken(t) && Follows(d)
    ensures NextToken(t + [d] + rest) == Lexed(Token(NORMAL, t), [d] + rest)
  {
    if PlainToken(t) {
      PlainIsRead(t, d, rest);
    } else {
      QuotedIsRead(t, t[0], d, rest);
    }
  }

  predicate CanStart(c: char) {
    !IsBlank(c) && c != '{' && c != '}' && c != ';' && c != '#'
  }

  /** The state in which a normal token goes on behind its first character. */
  function StateOf(c: char): LexState {
    if c == '\'' then SINGLE_QUOTE else if c == '\"' then DOUBLE_QUOTE else IN_NORMAL
  }

  lemma {:induction false} FirstIsRead(t: string, d: char, rest: string)
    requires t != "" && CanStart(t[0])
    ensures NextToken(t + [d] + rest) == Lex(StateOf(t[0]), [t[0]], t[1..] + [d] + rest)
  {
    var s := t + [d] + rest;
    assert s[0] == t[0] && s[1..] == t[1..] + [d] + rest && "" + [t[0]] == [t[0]];
  }

  lemma {:induction false} PlainIsRead(t: string, d: char, rest: string)
    requires PlainToken(t) && Follows(d)
    ensures NextToken(t + [d] + rest) == Lexed(Token(NORMAL, t), [d] + rest)
  {
    hide Lex, NextToken;
    FirstIsRead(t, d, rest);
    assert [t[0]] + t[1..] == t && !EndsNormal(t[0]);
    LexNormalRun([t[0]], t[1..], d, rest);
  }

  lemma {:induction false} QuotedIsRead(t: string, q: char, d: char, rest: string)
    requires QuotedToken(t, q) && q in "\"'" && Follows(d)
    ensures NextToken(t + [d] + rest) == Lexed(Token(NORMAL, t), [d] + rest)
  {
    hide Lex, NextToken;
    var w := t[1..|t| - 1];
    FirstIsRead(t, d, rest);
    LexQuotedRun(StateOf(q), [q], w, d, rest);
    assert t[1..] + [d] + rest == w + [q, d] + rest && [q] + w + [q] == t;
  }

  /** Reading on never changes what is collected, but for a last backslash that turns out to escape a quote. */
  lemma {:induction false} LexQuotedKeeps(state: LexState, v: string, s: string)
    requires IsQuoted(state) && v != ""
    ensures var r := Lex(state, v, s).token;
      r.kind != NORMAL ==> r.kind == ERROR
    ensures var r := Lex(state, v, s).token;
      r.kind == NORMAL ==>
        && |v| < |r.value| && r.value[..|v| - 1] == v[..|v| - 1]
        && (v[|v| - 1] != '\\' ==> r.value[|v| - 1] == v[|v| - 1])
    decreases s
  {
    if s != "" {
      var c, q := s[0], QuoteOf(state);
      if c == q {
        if !(|s| > 1 && EndsQuoted(s[1])) && v[|v| - 1] == '\\' {
          LexQuotedKeeps(state, v[..|v| - 1] + [c], s[1..]);
        }
      } else if c == '\\' && |s| > 1 && s[1] == '\\' {
        LexQuotedKeeps(state, v, s[1..]);
      } else {
        LexQuotedKeeps(state, v + [c], s[1..]);
        var r := Lex(state, v + [c], s[1..]).token;
        if r.kind == NORMAL {
          assert (v + [c])[..|v|] == v;
          assert r.value[..|v|] == v;
          assert r.value[..|v| - 1] == r.value[..|v|][..|v| - 1];
        }
      }
    }
  }

  /** A run of backslashes is read as one. */
  lemma {:induction false} LexCollapses(state: LexState, v: string, s: string)
    requires IsQuoted(state) && v != "" && s != "" && s[0] == '\\'
    ensures var r := Lex(state, v, s).token;
      r.kind == NORMAL && |r.value| > |v| + 1 ==> !(r.value[|v|] == '\\' && r.value[|v| + 1] == '\\')
    decreases s
  {
    var q, rest := QuoteOf(state), s[1..];
    if rest != "" {
      if rest[0] == '\\' {
        LexCollapses(state, v, rest);
      } else {
        var v1 := v + ['\\'];
        assert Lex(state, v, s) == Lex(state, v1, rest);
        if rest[0] != q {
          LexQuotedKeeps(state, v1 + [rest[0]], rest[1..]);
        } else if !(|rest| > 1 && EndsQuoted(rest[1])) {
          assert v1[..|v1| - 1] == v;
          LexQuotedKeeps(state, v + [q], rest[1..]);
        }
      }
    }
  }

  lemma {:induction false} LexQuotedConverse(state: LexState, v: string, w: string, d: char, rest: string)
    requires IsQuoted(state) && v != "" && Follows(d)
    requires Lex(state, v, w + [d] + rest).token == Token(NORMAL, v + w)
    ensures w != "" && w[|w| - 1] == QuoteOf(state) && CleanBody(w[..|w| - 1], QuoteOf(state))
    decreases w
  {
    var s, q := w + [d] + rest, QuoteOf(state);
    LexQuotedKeeps(state, v, s);
    assert w != "";
    var c := w[0];
    assert s[0] == c && s[1..] == w[1..] + [d] + rest;
    assert s[1..][0] == if |w| > 1 then w[1] else d;
    var vw := v + w;
    assert vw[|v| - 1] == v[|v| - 1] && vw[|v|] == c && (|w| > 1 ==> vw[|v| + 1] == w[1]);
    if c == q {
      if EndsQuoted(s[1..][0]) {
        assert v + [c] == v + w;
        assert |w| == 1;
      } else {
        LexQuotedKeeps(state, v[..|v| - 1] + [c], s[1..]);
        assert false;
      }
    } else if c == '\\' && s[1..][0] == '\\' {
      LexCollapses(state, v, s);
      assert false;
    } else {
      assert v + [c] + w[1..] == v + w;
      LexQuotedConverse(state, v + [c], w[1..], d, rest);
      var body := w[..|w| - 1];
      assert body == [c] + w[1..][..|w| - 2];
    }
  }

  lemma {:induction false} LexNormalKeeps(v: string, s: string)
    ensures var r := Lex(IN_NORMAL, v, s).token; |v| <= |r.value| && r.value[..|v|] == v
    decreases s
  {
    if s != "" && !EndsNormal(s[0]) {
      LexNormalKeeps(v + [s[0]], s[1..]);
      var r := Lex(IN_NORMAL, v + [s[0]], s[1..]).token;
      assert r.value[..|v|] == r.value[..|v| + 1][..|v|] == v;
    }
  }

  lemma {:induction false} LexCommentKind(v: string, s: string)
    ensures Lex(IN_COMMENT, v, s).token.kind in {COMMENT, EOF}
    decreases s
  {
    if s != "" && s[0] != '\n' && s[0] != '\r' {
      LexCommentKind(v + [s[0]], s[1..]);
    }
  }

  /** A normal token starts with a character that can start one. */
  lemma {:induction false} NormalStarts(s: string)
    ensures var r := NextToken(s).token; r.kind == NORMAL ==> r.value != "" && CanStart(r.value[0])
    decreases s
  {
    if s != "" {
      var c := s[0];
      if c == '#' {
        LexCommentKind([c], s[1..]);
      } else if c == '\"' {
        LexQuotedKeeps(DOUBLE_QUOTE, [c], s[1..]);
      } else if c == '\'' {
        LexQuotedKeeps(SINGLE_QUOTE, [c], s[1..]);
      } else if IsBlank(c) {
        NormalStarts(s[1..]);
      } else if CanStart(c) {
        assert "" + [c] == [c];
        LexNormalKeeps([c], s[1..]);
        var r := Lex(IN_NORMAL, [c], s[1..]).token;
        assert r.value[0] == r.value[..1][0];
      }
    }
  }

  lemma {:induction false} ReadIsStable(t: string, d: char, rest: string)
    requires Follows(d) && NextToken(t + [d] + rest).token == Token(NORMAL, t)
    ensures StableToken(t)
  {
    hide Lex, NextToken, CleanBody;
    NormalStarts(t + [d] + rest);
    FirstIsRead(t, d, rest);
    var body := t[1..];
    assert t == [t[0]] + body;
    if t[0] == '\"' || t[0] == '\'' {
      LexQuotedConverse(StateOf(t[0]), [t[0]], body, d, rest);
      assert t[1..|t| - 1] == body[..|body| - 1];
      assert QuotedToken(t, t[0]);
    } else {
      LexNormalRun([t[0]], body, d, rest);
      assert forall i :: 1 <= i < |t| ==> t[i] == body[i - 1];
    }
  }

  /** A printed token is read back as itself if and only if it is stable. */
  lemma {:induction false} TokenSurvivesExactly(t: string, d: char, rest: string)
    requires Follows(d)
    ensures NextToken(t + [d] + rest).token == Token(NORMAL, t) <==> StableToken(t)
  {
    if StableToken(t) {
      StableIsRead(t, d, rest);
    } else if NextToken(t + [d] + rest).token == Token(NORMAL, t) {
      ReadIsStable(t, d, rest);
    }
  }

  // ---------------------------------------------------------------------------------------
  // The tokens of a tree, and of its text
  // ---------------------------------------------------------------------------------------

  function NormalTokens(ts: seq<string>): seq<Token> {
    if ts == [] then [] else NormalTokens(ts[..|ts| - 1]) + [Token(NORMAL, ts[|ts| - 1])]
  }

  const OPEN := Token(START_BLOCK, "{")
  const CLOSE := Token(END_BLOCK, "}")
  const SEMICOLON := Token(STATEMENT_END, ";")

  function StatementTokens(s: Statement): seq<Token>
    decreases s, 0
  {
    NormalTokens(s.tokens)
    + (if s.child.Some? then [OPEN] + StatementsTokens(s.child.value.statements) + [CLOSE] else [SEMICOLON])
  }

  function StatementsTokens(ss: seq<Statement>): seq<Token>
    decreases ss, 0
  {
    if ss == [] then [] else StatementTokens(ss[0]) + StatementsTokens(ss[1..])
  }

  predicate Printable(s: Statement)
    decreases s, 0
  {
    && s.tokens != []
    && (forall i :: 0 <= i < |s.tokens| ==> StableToken(s.tokens[i]))
    && (s.child.Some? ==> AllPrintable(s.child.value.statements))
  }

  predicate AllPrintable(ss: seq<Statement>)
    decreases ss, 0
  {
    ss == [] || (Printable(ss[0]) && AllPrintable(ss[1..]))
  }

  lemma {:induction false} SkipBlank(c: char, s: string)
    requires IsBlank(c)
    ensures NextToken([c] + s) == NextToken(s)
    ensures Tokens([c] + s) == Tokens(s)
  {
    assert ([c] + s)[1..] == s;
  }

  lemma {:induction false} SkipIndent(depth: nat, s: string)
    ensures NextToken(Indent(depth) + s) == NextToken(s)
    ensures Tokens(Indent(depth) + s) == Tokens(s)
  {
    if depth == 0 {
      assert Indent(depth) + s == s;
    } else {
      assert Indent(depth) + s == Indent(depth - 1) + ([' '] + ([' '] + s));
      SkipIndent(depth - 1, [' '] + ([' '] + s));
      SkipBlank(' ', [' '] + s);
      SkipBlank(' ', s);
    }
  }

  lemma {:induction false} ReadPunctuation(t: Token, s: string)
    requires t == OPEN || t == CLOSE || t == SEMICOLON
    ensures NextToken(t.value + s) == Lexed(t, s)
    ensures Tokens(t.value + s) == [t] + Tokens(s)
  {
    assert (t.value + s)[1..] == s && t.value == [t.value[0]];
  }

  lemma {:induction false} TokensOfJoin(ts: seq<string>, d: char, rest: string)
    requires ts != [] && (forall i :: 0 <= i < |ts| ==> StableToken(ts[i])) && Follows(d)
    ensures Tokens(JoinTokens(ts) + [d] + rest) == NormalTokens(ts) + Tokens([d] + rest)
  {
    hide Tokens, NextToken, StableToken, JoinTokens, NormalTokens;
    var init, t := ts[..|ts| - 1], ts[|ts| - 1];
    LastIsRead(t, d, rest);
    JoinStep(ts, d, rest);
    if |ts| > 1 {
      var s := t + [d] + rest;
      TokensOfJoin(init, ' ', s);
      SkipBlank(' ', s);
      Regroup(NormalTokens(init), [Token(NORMAL, t)], Tokens([d] + rest));
    }
  }

  lemma {:induction false} LastIsRead(t: string, d: char, rest: string)
    requires StableToken(t) && Follows(d)
    ensures Tokens(t + [d] + rest) == [Token(NORMAL, t)] + Tokens([d] + rest)
  {
    hide NextToken, StableToken;
    StableIsRead(t, d, rest);
  }

  lemma {:induction false} JoinStep(ts: seq<string>, d: char, rest: string)
    requires ts != []
    ensures var init, t := ts[..|ts| - 1], ts[|ts| - 1];
      && NormalTokens(ts) == NormalTokens(init) + [Token(NORMAL, t)]
      && (|ts| == 1 ==> JoinTokens(ts) == t && NormalTokens(init) == [])
      && (|ts| > 1 ==> JoinTokens(ts) + [d] + rest == JoinTokens(init) + [' '] + (t + [d] + rest))
  {
    var init, t := ts[..|ts| - 1], ts[|ts| - 1];
    if |ts| > 1 {
      Regroup(JoinTokens(init) + " ", t, [d]);
      Regroup(JoinTokens(init) + " ", t + [d], rest);
    }
  }

  lemma {:induction false} TokensOfSimple(s: Statement, depth: nat, tail: string)
    requires Printable(s) && s.child.None?
    ensures Tokens(StatementText(s, depth) + tail) == StatementTokens(s) + Tokens(tail)
  {
    hide Tokens, NextToken, JoinTokens, StableToken, Indent;
    var rest := "\n" + tail;
    assert StatementText(s, depth) + tail == Indent(depth) + (JoinTokens(s.tokens) + [';'] + rest);
    SkipIndent(depth, JoinTokens(s.tokens) + [';'] + rest);
    TokensOfJoin(s.tokens, ';', rest);
    ReadPunctuation(SEMICOLON, rest);
    SkipBlank('\n', tail);
  }

  lemma {:induction false} TokensOfBlock(s: Statement, depth: nat, tail: string)
    requires Printable(s) && s.child.Some?
    ensures Tokens(StatementText(s, depth) + tail) == StatementTokens(s) + Tokens(tail)
    decreases s, 0
  {
    hide Tokens, NextToken, JoinTokens, StableToken, Indent, StatementText, StatementsText;
    var inner := s.child.value.statements;
    var body := BlockBody(inner, depth, tail);
    BlockText(s, depth, tail);
    BlockHead(s.tokens, depth, body);
    TokensOfText(inner, depth + 1, BlockTail(depth, tail));
    TailIsRead(depth, tail);
    Bracketed(NormalTokens(s.tokens), [OPEN], StatementsTokens(inner), [CLOSE], Tokens(tail));
  }

  /** The text behind the statements of a block. */
  function BlockTail(depth: nat, tail: string): string {
    Indent(depth) + ("}" + ("\n" + tail))
  }

  function BlockBody(inner: seq<Statement>, depth: nat, tail: string): string {
    StatementsText(inner, depth + 1) + BlockTail(depth, tail)
  }

  lemma {:induction false} BlockText(s: Statement, depth: nat, tail: string)
    requires s.child.Some?
    ensures StatementText(s, depth) + tail ==
      Indent(depth) + (JoinTokens(s.tokens) + [' '] + ("{" + ("\n" + BlockBody(s.child.value.statements, depth, tail))))
  {
    hide Indent, JoinTokens, StatementsText;
    var i, j, t := Indent(depth), JoinTokens(s.tokens), StatementsText(s.child.value.statements, depth + 1);
    assert ConfigText(s.child.value, depth + 1) == t;
    assert " {\n" == [' '] + "{" + "\n" && "}" + "\n" + tail == "}" + ("\n" + tail);
    BlockConcat(i, j, t, tail);
  }

  lemma {:induction false} BlockConcat(i: string, j: string, t: string, tail: string)
    ensures i + j + (" {\n" + t + i + "}") + "\n" + tail ==
      i + (j + [' '] + ("{" + ("\n" + (t + (i + ("}" + ("\n" + tail)))))))
  {
  }

  /** The tokens and the brace in front of a block. */
  lemma {:induction false} BlockHead(ts: seq<string>, depth: nat, body: string)
    requires ts != [] && forall i :: 0 <= i < |ts| ==> StableToken(ts[i])
    ensures Tokens(Indent(depth) + (JoinTokens(ts) + [' '] + ("{" + ("\n" + body)))) ==
      NormalTokens(ts) + ([OPEN] + Tokens(body))
  {
    hide Tokens, NextToken, JoinTokens, StableToken, Indent, NormalTokens;
    var rest := "{" + ("\n" + body);
    SkipIndent(depth, JoinTokens(ts) + [' '] + rest);
    TokensOfJoin(ts, ' ', rest);
    SkipBlank(' ', rest);
    ReadPunctuation(OPEN, "\n" + body);
    SkipBlank('\n', body);
  }

  lemma {:induction false} TailIsRead(depth: nat, tail: string)
    ensures Tokens(BlockTail(depth, tail)) == [CLOSE] + Tokens(tail)
  {
    hide Tokens, NextToken, Indent;
    SkipIndent(depth, "}" + ("\n" + tail));
    ReadPunctuation(CLOSE, "\n" + tail);
    SkipBlank('\n', tail);
  }

  /** The text of printable statements reads as their tokens. */
  lemma {:induction false} TokensOfText(ss: seq<Statement>, depth: nat, tail: string)
    requires AllPrintable(ss)
    ensures Tokens(StatementsText(ss, depth) + tail) == StatementsTokens(ss) + Tokens(tail)
    decreases ss, 0
  {
    hide Tokens, StatementText, StatementTokens, Printable;
    if ss == [] {
      assert StatementsText(ss, depth) + tail == tail;
    } else {
      var more := StatementsText(ss[1..], depth) + tail;
      Regroup(StatementText(ss[0], depth), StatementsText(ss[1..], depth), tail);
      Regroup(StatementTokens(ss[0]), StatementsTokens(ss[1..]), Tokens(tail));
      if ss[0].child.Some? {
        TokensOfBlock(ss[0], depth, more);
      } else {
        TokensOfSimple(ss[0], depth, more);
      }
      TokensOfText(ss[1..], depth, tail);
    }
  }

  // ---------------------------------------------------------------------------------------
  // Building the tree of a tree's tokens
  // ---------------------------------------------------------------------------------------

  lemma {:induction false} BuildConcat(b: Build, x: seq<Token>, y: seq<Token>)
    ensures BuildAll(b, x + y) == BuildAll(BuildAll(b, x), y)
    decreases x
  {
    if x == [] {
      assert x + y == y;
    } else {
      assert (x + y)[1..] == x[1..] + y;
      BuildConcat(BuildStep(b, x[0]), x[1..], y);
    }
  }

  lemma {:induction false} BuildOne(b: Build, t: Token)
    ensures BuildAll(b, [t]) == BuildStep(b, t)
  {
    assert BuildAll(BuildStep(b, t), []) == BuildStep(b, t);
  }

  predicate BetweenStatements(last: TokenType) {
    last == START || last == STATEMENT_END || last == START_BLOCK || last == END_BLOCK
  }

  function LastOf(s: Statement): TokenType {
    if s.child.Some? then END_BLOCK else STATEMENT_END
  }

  lemma {:induction false} BuildNormal(below: Stack, done: seq<Statement>, last: TokenType, ts: seq<string>)
    requires BetweenStatements(last) && ts != []
    ensures BuildAll(Building(below, Frame(done, None), last), NormalTokens(ts)) ==
            Building(below, Frame(done, Some(ts)), NORMAL)
  {
    var b := Building(below, Frame(done, None), last);
    var init, t := ts[..|ts| - 1], Token(NORMAL, ts[|ts| - 1]);
    BuildConcat(b, NormalTokens(init), [t]);
    BuildOne(BuildAll(b, NormalTokens(init)), t);
    assert ts == init + [t.value];
    if init != [] {
      BuildNormal(below, done, last, init);
    }
  }

  lemma {:induction false} BuildStatement(below: Stack, done: seq<Statement>, last: TokenType, s: Statement)
    requires BetweenStatements(last) && WellFormed(s)
    ensures BuildAll(Building(below, Frame(done, None), last), StatementTokens(s)) ==
            Building(below, Frame(done + [s], None), LastOf(s))
    decreases s, 0
  {
    var b := Building(below, Frame(done, None), last);
    var mid := Building(below, Frame(done, Some(s.tokens)), NORMAL);
    BuildNormal(below, done, last, s.tokens);
    if s.child.None? {
      BuildConcat(b, NormalTokens(s.tokens), [SEMICOLON]);
      BuildOne(mid, SEMICOLON);
    } else {
      var inner := s.child.value.statements;
      BuildConcat(b, NormalTokens(s.tokens), [OPEN] + StatementsTokens(inner) + [CLOSE]);
      BuildBlock(below, done, s.tokens, inner);
      assert s == Statement(s.tokens, Some(Config(inner)));
    }
  }

  lemma {:induction false} BuildBlock(below: Stack, done: seq<Statement>, ts: seq<string>, inner: seq<Statement>)
    requires AllWellFormed(inner)
    ensures BuildAll(Building(below, Frame(done, Some(ts)), NORMAL), [OPEN] + StatementsTokens(inner) + [CLOSE]) ==
            Building(below, Frame(done + [Statement(ts, Some(Config(inner)))], None), END_BLOCK)
    decreases inner, 1
  {
    var b := Building(below, Frame(done, Some(ts)), NORMAL);
    var under := Push(below, b.top);
    BuildConcat(b, [OPEN] + StatementsTokens(inner), [CLOSE]);
    BuildConcat(b, [OPEN], StatementsTokens(inner));
    BuildOne(b, OPEN);
    BuildStatements(under, [], START_BLOCK, inner);
    assert [] + inner == inner;
    BuildOne(Building(under, Frame(inner, None),
                      if inner == [] then START_BLOCK else LastOf(inner[|inner| - 1])), CLOSE);
  }

  predicate WellFormed(s: Statement)
    decreases s, 0
  {
    s.tokens != [] && (s.child.Some? ==> AllWellFormed(s.child.value.statements))
  }

  predicate AllWellFormed(ss: seq<Statement>)
    decreases ss, 0
  {
    ss == [] || (WellFormed(ss[0]) && AllWellFormed(ss[1..]))
  }

  lemma {:induction false} BuildStatements(below: Stack, done: seq<Statement>, last: TokenType, ss: seq<Statement>)
    requires BetweenStatements(last) && AllWellFormed(ss)
    ensures BuildAll(Building(below, Frame(done, None), last), StatementsTokens(ss)) ==
            Building(below, Frame(done + ss, None), if ss == [] then last else LastOf(ss[|ss| - 1]))
    decreases ss, 0
  {
    if ss == [] {
      assert done + ss == done;
    } else {
      BuildConcat(Building(below, Frame(done, None), last), StatementTokens(ss[0]), StatementsTokens(ss[1..]));
      BuildStatement(below, done, last, ss[0]);
      BuildStatements(below, done + [ss[0]], LastOf(ss[0]), ss[1..]);
      assert done + [ss[0]] + ss[1..] == done + ss;
    }
  }

  lemma {:induction false} PrintableIsWellFormed(ss: seq<Statement>)
    requires AllPrintable(ss)
    ensures AllWellFormed(ss)
    decreases ss, 0
  {
    if ss != [] {
      if ss[0].child.Some? {
        PrintableIsWellFormed(ss[0].child.value.statements);
      }
      PrintableIsWellFormed(ss[1..]);
    }
  }

  /** Print and parse: a printable configuration comes back, unless it is empty. */
  lemma {:induction false} RoundTrip(c: Config, depth: nat)
    requires AllPrintable(c.statements)
    ensures ParseText(ConfigText(c, depth)) == if c.statements == [] then Rejected else Accepted(c)
  {
    hide AllPrintable, StatementsText, StatementTokens, BuildStep, Tokens;
    var ss := c.statements;
    var end := Token(EOF, "");
    TokensOfText(ss, depth, "");
    assert StatementsText(ss, depth) + "" == ConfigText(c, depth);
    TokensOfNothing();
    PrintableIsWellFormed(ss);
    BuildStatements(Bottom, [], START, ss);
    assert [] + ss == ss;
    BuildConcat(Begin(), StatementsTokens(ss), [end]);
    BuildOne(BuildAll(Begin(), StatementsTokens(ss)), end);
    EndOfFile(ss, BuildAll(Begin(), StatementsTokens(ss)));
  }

  lemma {:induction false} TokensOfNothing()
    ensures Tokens("") == [Token(EOF, "")]
  {
  }

  lemma {:induction false} EndOfFile(ss: seq<Statement>, b: Build)
    requires ss == [] ==> b == Building(Bottom, Frame([], None), START)
    requires ss != [] ==>
      b.Building? && b.below.Bottom? && b.top == Frame(ss, None) && b.last in {STATEMENT_END, END_BLOCK}
    ensures BuildStep(b, Token(EOF, "")) == if ss == [] then Rejected else Accepted(Config(ss))
  {
  }
}
