/**
 * The round trip, exactly: printing and parsing gives a configuration back if and only if it is
 * not empty, every statement has a token, and every token is stable.
 */
module ConfigExact {
  import opened ConfigRoundTrip
  import opened ConfigSpec
  import opened ConfigTree
  import opened Options
  import opened Sequences

  /** `a` first differs from `b`, or stops, where `b` has a normal token. */
  ghost predicate Diverges(a: seq<Token>, b: seq<Token>) {
    exists k :: DivergesAt(a, b, k)
  }

  predicate DivergesAt(a: seq<Token>, b: seq<Token>, k: int) {
    && 0 <= k < |b| && k <= |a| && b[k].kind == NORMAL
    && a[..k] == b[..k] && !(k < |a| && a[k] == b[k])
  }

  lemma {:induction false} DivergesLonger(a: seq<Token>, b: seq<Token>, more: seq<Token>)
    requires Diverges(a, b)
    ensures Diverges(a, b + more)
  {
    var k :| DivergesAt(a, b, k);
    assert (b + more)[..k] == b[..k];
    assert DivergesAt(a, b + more, k);
  }

  lemma {:induction false} DivergesLater(p: seq<Token>, a: seq<Token>, b: seq<Token>)
    requires Diverges(a, b)
    ensures Diverges(p + a, p + b)
  {
    var k :| DivergesAt(a, b, k);
    var n := |p| + k;
    assert (p + a)[..n] == p + a[..k] && (p + b)[..n] == p + b[..k];
    assert DivergesAt(p + a, p + b, n);
  }

  /** A diverging prefix and closing braces never add up to the same tokens. */
  lemma {:induction false} DivergesForGood(a: seq<Token>, b: seq<Token>, m: nat, n: nat)
    requires Diverges(a, b)
    ensures a + Closers(m) != b + Closers(n)
  {
    var k :| DivergesAt(a, b, k);
    var x, y := a + Closers(m), b + Closers(n);
    assert y[k] == b[k];
    if k < |a| {
      assert x[k] == a[k];
    } else {
      ClosersAt(m, k - |a|);
      if k < |x| {
        assert x[k] == Closers(m)[k - |a|];
      }
    }
  }

  lemma {:induction false} ClosersAt(m: nat, i: nat)
    ensures |Closers(m)| == m
    ensures i < m ==> Closers(m)[i] == CLOSE
  {
    if m > 0 {
      ClosersAt(m - 1, i);
    }
  }

  // ---------------------------------------------------------------------------------------
  // The first token that is not stable shows
  // ---------------------------------------------------------------------------------------

  lemma {:induction false} BodyPrefix(x: string, p: seq<Token>, y: string)
    requires Tokens(x) == p + Tokens(y)
    requires forall i :: 0 <= i < |p| ==> p[i].kind != COMMENT
    ensures BodyOf(x) == p + BodyOf(y)
  {
    hide Tokens, BodyOf, EndOf, CommentFree, Body;
    BodyAndEnd(x);
    BodyAndEnd(y);
    CommentFreeConcat(p, Tokens(y));
    Regroup(p, BodyOf(y), [EndOf(y)]);
    SameFront(BodyOf(x), EndOf(x), p + BodyOf(y), EndOf(y));
  }

  lemma {:induction false} NormalTokensKinds(ts: seq<string>)
    ensures |NormalTokens(ts)| == |ts|
    ensures forall i :: 0 <= i < |ts| ==> NormalTokens(ts)[i] == Token(NORMAL, ts[i])
  {
    if ts != [] {
      NormalTokensKinds(ts[..|ts| - 1]);
    }
  }

  lemma {:induction false} UnstableShows(t: string, d: char, rest: string)
    requires !StableToken(t) && Follows(d)
    ensures Diverges(BodyOf(t + [d] + rest), [Token(NORMAL, t)])
  {
    var s := t + [d] + rest;
    var a := BodyOf(s);
    BodyAndEnd(s);
    TokenSurvivesExactly(t, d, rest);
    assert !(0 < |a| && a[0] == Token(NORMAL, t)) by {
      if t != "" && CanStart(t[0]) {
        assert s[0] == t[0];
        FirstIsNoComment(s);
      } else if 0 < |a| {
        assert Genuine(a[0]);
      }
    }
    assert DivergesAt(a, [Token(NORMAL, t)], 0);
  }

  lemma {:induction false} FirstIsNoComment(s: string)
    requires s != "" && CanStart(s[0])
    ensures NextToken(s).token.kind != COMMENT
  {
    var c := s[0];
    if c == '\"' {
      LexQuotedKeeps(DOUBLE_QUOTE, [c], s[1..]);
    } else if c == '\'' {
      LexQuotedKeeps(SINGLE_QUOTE, [c], s[1..]);
    } else {
      LexNormalKind("" + [c], s[1..]);
    }
  }

  lemma {:induction false} JoinShows(ts: seq<string>, d: char, rest: string)
    requires !(forall i :: 0 <= i < |ts| ==> StableToken(ts[i])) && Follows(d)
    ensures Diverges(BodyOf(JoinTokens(ts) + [d] + rest), NormalTokens(ts))
  {
    var init, t := ts[..|ts| - 1], ts[|ts| - 1];
    var s := t + [d] + rest;
    var whole := JoinTokens(ts) + [d] + rest;
    if |ts| == 1 {
      UnstableShows(t, d, rest);
      assert NormalTokens(ts) == [Token(NORMAL, t)];
    } else {
      assert whole == JoinTokens(init) + [' '] + s;
      if forall i :: 0 <= i < |init| ==> StableToken(init[i]) {
        assert !StableToken(t);
        TokensOfJoin(init, ' ', s);
        SkipBlank(' ', s);
        NormalTokensKinds(init);
        BodyPrefix(whole, NormalTokens(init), s);
        UnstableShows(t, d, rest);
        DivergesLater(NormalTokens(init), BodyOf(s), [Token(NORMAL, t)]);
      } else {
        JoinShows(init, ' ', s);
        DivergesLonger(BodyOf(whole), NormalTokens(init), [Token(NORMAL, t)]);
      }
    }
  }

  lemma {:induction false} SameBody(x: string, y: string)
    requires Tokens(x) == Tokens(y)
    ensures BodyOf(x) == BodyOf(y)
  {
    assert Tokens(x) == [] + Tokens(y);
    BodyPrefix(x, [], y);
    assert [] + BodyOf(y) == BodyOf(y);
  }

  lemma {:induction false} StatementKinds(s: Statement)
    ensures forall i :: 0 <= i < |StatementTokens(s)| ==> StatementTokens(s)[i].kind != COMMENT
    decreases s, 0
  {
    NormalTokensKinds(s.tokens);
    if s.child.Some? {
      StatementsKinds(s.child.value.statements);
    }
  }

  lemma {:induction false} StatementsKinds(ss: seq<Statement>)
    ensures forall i :: 0 <= i < |StatementsTokens(ss)| ==> StatementsTokens(ss)[i].kind != COMMENT
    decreases ss, 0
  {
    if ss != [] {
      StatementKinds(ss[0]);
      StatementsKinds(ss[1..]);
    }
  }

  lemma {:induction false} StatementShows(s: Statement, depth: nat, tail: string)
    requires WellFormed(s) && !Printable(s)
    ensures Diverges(BodyOf(StatementText(s, depth) + tail), StatementTokens(s))
    decreases s, 0
  {
    hide Diverges, JoinTokens, Indent;
    var text := StatementText(s, depth) + tail;
    var d := if s.child.Some? then ' ' else ';';
    var rest := text[|Indent(depth)| + |JoinTokens(s.tokens)| + 1..];
    assert text == Indent(depth) + (JoinTokens(s.tokens) + [d] + rest);
    SkipIndent(depth, JoinTokens(s.tokens) + [d] + rest);
    SameBody(text, JoinTokens(s.tokens) + [d] + rest);
    if forall i :: 0 <= i < |s.tokens| ==> StableToken(s.tokens[i]) {
      BlockShows(s, depth, tail);
    } else {
      JoinShows(s.tokens, d, rest);
      DivergesLonger(BodyOf(text), NormalTokens(s.tokens), StatementTokens(s)[|NormalTokens(s.tokens)|..]);
      assert StatementTokens(s) == NormalTokens(s.tokens) + StatementTokens(s)[|NormalTokens(s.tokens)|..];
    }
  }

  lemma {:induction false} BlockShows(s: Statement, depth: nat, tail: string)
    requires WellFormed(s) && (forall i :: 0 <= i < |s.tokens| ==> StableToken(s.tokens[i]))
    requires s.child.Some? && !AllPrintable(s.child.value.statements)
    ensures Diverges(BodyOf(StatementText(s, depth) + tail), StatementTokens(s))
    decreases s, -1
  {
    hide Tokens, NextToken, JoinTokens, StableToken, Indent, Diverges, StatementText, StatementsText, NormalTokens,
         BodyOf, StatementsTokens;
    var inner := s.child.value.statements;
    var body := BlockBody(inner, depth, tail);
    var text := StatementText(s, depth) + tail;
    BlockText(s, depth, tail);
    BlockHead(s.tokens, depth, body);
    var p := NormalTokens(s.tokens) + [OPEN];
    Regroup(NormalTokens(s.tokens), [OPEN], Tokens(body));
    NormalTokensKinds(s.tokens);
    BodyPrefix(text, p, body);
    StatementsShow(inner, depth + 1, BlockTail(depth, tail));
    DivergesLater(p, BodyOf(body), StatementsTokens(inner));
    DivergesLonger(BodyOf(text), p + StatementsTokens(inner), [CLOSE]);
    Bracketed(NormalTokens(s.tokens), [OPEN], StatementsTokens(inner), [CLOSE], []);
    TokensWithBlock(s);
  }

  lemma {:induction false} TokensWithBlock(s: Statement)
    requires s.child.Some?
    ensures NormalTokens(s.tokens) + [OPEN] + StatementsTokens(s.child.value.statements) + [CLOSE] == StatementTokens(s)
  {
    hide NormalTokens, StatementsTokens;
    var a, b := NormalTokens(s.tokens), StatementsTokens(s.child.value.statements);
    Regroup(a + [OPEN], b, [CLOSE]);
    Regroup(a, [OPEN], b + [CLOSE]);
    Regroup([OPEN], b, [CLOSE]);
  }

  lemma {:induction false} StatementsShow(ss: seq<Statement>, depth: nat, tail: string)
    requires AllWellFormed(ss) && !AllPrintable(ss)
    ensures Diverges(BodyOf(StatementsText(ss, depth) + tail), StatementsTokens(ss))
    decreases ss, 0
  {
    hide Diverges;
    var more := StatementsText(ss[1..], depth) + tail;
    var text := StatementsText(ss, depth) + tail;
    assert text == StatementText(ss[0], depth) + more;
    if Printable(ss[0]) {
      if ss[0].child.Some? {
        TokensOfBlock(ss[0], depth, more);
      } else {
        TokensOfSimple(ss[0], depth, more);
      }
      StatementKinds(ss[0]);
      BodyPrefix(text, StatementTokens(ss[0]), more);
      StatementsShow(ss[1..], depth, tail);
      DivergesLater(StatementTokens(ss[0]), BodyOf(more), StatementsTokens(ss[1..]));
    } else {
      StatementShows(ss[0], depth, more);
      DivergesLonger(BodyOf(text), StatementTokens(ss[0]), StatementsTokens(ss[1..]));
    }
  }

  lemma {:induction false} AcceptedIsWellFormed(s: string)
    ensures ParseText(s).Accepted? ==> AllWellFormed(ParseText(s).config.statements)
  {
    OutcomeExactly(s);
  }

  /** Printing and parsing returns a configuration if and only if it is printable and not empty. */
  lemma {:induction false} RoundTripExactly(c: Config, depth: nat)
    ensures ParseText(ConfigText(c, depth)) == Accepted(c) <==> c.statements != [] && AllPrintable(c.statements)
  {
    var ss, text := c.statements, ConfigText(c, depth);
    if AllPrintable(ss) {
      RoundTrip(c, depth);
    } else if ParseText(text) == Accepted(c) {
      AcceptedIsWellFormed(text);
      var ts := BodyOf(text);
      var h := Height(ts, |ts|);
      StatementsShow(ss, depth, "");
      assert StatementsText(ss, depth) + "" == text;
      DivergesForGood(ts, StatementsTokens(ss), if h >= 0 then h else 0, if h >= 0 then 0 else 1);
      assert Closers(0) == [] && Closers(1) == [CLOSE];
      OutcomeExactly(text);
      assert false;
    }
  }

  // ---------------------------------------------------------------------------------------
  // Texts on which the parser does what its callers may not expect
  // ---------------------------------------------------------------------------------------

  lemma {:induction false} FirstStatement(rest: string)
    ensures Tokens("a; " + rest) == [Token(NORMAL, "a"), SEMICOLON] + Tokens(rest)
  {
    PlainIsRead("a", ';', " " + rest);
    assert "a; " + rest == "a" + [';'] + (" " + rest) && [';'] + (" " + rest) == SEMICOLON.value + (" " + rest);
    ReadPunctuation(SEMICOLON, " " + rest);
    SkipBlank(' ', rest);
    assert [' '] + rest == " " + rest;
  }

  lemma {:induction false} AtTheEnd()
    ensures Tokens("") == [Token(EOF, "")]
  {
  }

  lemma {:induction false} Closes(rest: string)
    ensures Tokens("}" + rest) == [CLOSE] + Tokens(rest)
  {
    ReadPunctuation(CLOSE, rest);
  }

  /** The builder, after `a;`. */
  lemma {:induction false} AfterFirst(ts: seq<Token>)
    ensures BuildAll(Begin(), [Token(NORMAL, "a"), SEMICOLON] + ts) ==
      BuildAll(Building(Bottom, Frame([Statement(["a"], None)], None), STATEMENT_END), ts)
  {
    var all := [Token(NORMAL, "a"), SEMICOLON] + ts;
    assert all[1..] == [SEMICOLON] + ts && ([SEMICOLON] + ts)[1..] == ts;
    assert [] + [Statement(["a"], None)] == [Statement(["a"], None)];
  }

  lemma {:induction false} BuildNext(b: Build, t: Token, ts: seq<Token>)
    ensures BuildAll(b, [t] + ts) == BuildAll(BuildStep(b, t), ts)
  {
    hide BuildStep;
    assert ([t] + ts)[1..] == ts;
  }

  lemma {:induction false} NothingToBuild(b: Build)
    ensures BuildAll(b, []) == b
  {
  }

  /** `a; }` is accepted, and the closing brace is not noticed. */
  lemma {:induction false} ExtraBraceIsAccepted()
    ensures ParseText("a; }") == Accepted(Config([Statement(["a"], None)]))
  {
    hide Tokens, BuildAll;
    FirstStatement("}");
    Closes("");
    AtTheEnd();
    assert "a; }" == "a; " + "}" && "}" == "}" + "";
    var end := Token(EOF, "");
    AfterFirst([CLOSE] + [end]);
    var b := Building(Bottom, Frame([Statement(["a"], None)], None), STATEMENT_END);
    BuildNext(b, CLOSE, [end]);
    assert [end] + [] == [end];
    BuildNext(BuildStep(b, CLOSE), end, []);
    NothingToBuild(BuildStep(BuildStep(b, CLOSE), end));
  }

  /** With one more, the program uses its empty stack. */
  lemma {:induction false} TwoExtraBracesAreUndefined()
    ensures ParseText("a; }}") == Undefined
  {
    hide Tokens, BuildAll;
    FirstStatement("}}");
    Closes("}");
    Closes("");
    AtTheEnd();
    assert "a; }}" == "a; " + "}}" && "}}" == "}" + "}" && "}" == "}" + "";
    var end := [Token(EOF, "")];
    AfterFirst([CLOSE] + ([CLOSE] + end));
    var b := Building(Bottom, Frame([Statement(["a"], None)], None), STATEMENT_END);
    BuildNext(b, CLOSE, [CLOSE] + end);
    BuildNext(BuildStep(b, CLOSE), CLOSE, end);
    assert [end[0]] + [] == end;
    BuildNext(Undefined, end[0], []);
    NothingToBuild(Undefined);
  }

  /** A plain token at the end of the file is dropped. */
  lemma {:induction false} LastTokenIsDropped()
    ensures ParseText("a; b") == Accepted(Config([Statement(["a"], None)]))
  {
    hide Tokens, BuildAll;
    FirstStatement("b");
    LastIsPending();
    assert "a; b" == "a; " + "b";
    var end := Token(EOF, "b");
    AfterFirst([end]);
    var b := Building(Bottom, Frame([Statement(["a"], None)], None), STATEMENT_END);
    assert [end] + [] == [end];
    BuildNext(b, end, []);
    NothingToBuild(BuildStep(b, end));
  }

  lemma {:induction false} LastIsPending()
    ensures Tokens("b") == [Token(EOF, "b")]
  {
    assert "b"[1..] == "" && "" + ['b'] == "b";
    assert NextToken("b") == Lex(IN_NORMAL, "b", "");
  }

  /** Of two backslashes in quotes one is read. */
  lemma {:induction false} DoubleBackslashIsHalved(d: char, rest: string)
    requires Follows(d)
    ensures NextToken("\"\\\\\"" + [d] + rest).token == Token(NORMAL, "\"\\\"")
  {
    var s := "\"\\\\\"" + [d] + rest;
    assert s[1..] == "\\\\\"" + [d] + rest && s[2..] == "\\\"" + [d] + rest && s[3..] == "\"" + [d] + rest;
    assert s[1..][1..] == s[2..] && s[2..][1..] == s[3..] && s[3..][1..] == [d] + rest;
    assert NextToken(s) == Lex(DOUBLE_QUOTE, "\"", s[1..]);
    assert Lex(DOUBLE_QUOTE, "\"", s[1..]) == Lex(DOUBLE_QUOTE, "\"", s[2..]);
    assert Lex(DOUBLE_QUOTE, "\"", s[2..]) == Lex(DOUBLE_QUOTE, "\"" + ['\\'], s[3..]);
    assert "\"" + ['\\'] + ['\"'] == "\"\\\"";
  }

  // ---------------------------------------------------------------------------------------
  // The printed form
  // ---------------------------------------------------------------------------------------

  /** Two spaces for each level. */
  lemma {:induction false} IndentIs(depth: nat)
    ensures Indent(depth) == seq(2 * depth, _ => ' ')
  {
    if depth > 0 {
      IndentIs(depth - 1);
    }
  }

  /** A statement without a block, and one with a block, at any depth. */
  lemma {:induction false} PrintedAs(a: string, b: string, c: string, depth: nat)
    ensures var i, deeper := seq(2 * depth, _ => ' '), seq(2 * depth + 2, _ => ' ');
      var inner := Statement([c], None);
      && StatementText(inner, depth) == i + c + ";" + "\n"
      && StatementText(Statement([a, b], Some(Config([inner]))), depth)
         == i + (a + " " + b) + (" {\n" + (deeper + c + ";" + "\n") + i + "}") + "\n"
  {
    IndentIs(depth);
    IndentIs(depth + 1);
    var inner := Statement([c], None);
    var block := Config([inner]);
    var i, deeper := Indent(depth), Indent(depth + 1);
    assert deeper == seq(2 * depth + 2, _ => ' ');
    assert [a, b][..1] == [a] && [inner][1..] == [];
    assert JoinTokens([c]) == c && JoinTokens([a, b]) == a + " " + b;
    assert StatementText(inner, depth) == i + c + ";" + "\n";
    assert StatementText(inner, depth + 1) == deeper + c + ";" + "\n";
    PrintedInTurn(inner, [], depth + 1);
    assert [inner] + [] == [inner];
    assert ConfigText(block, depth + 1) == StatementText(inner, depth + 1);
  }

  /** Statements are printed one after the other. */
  lemma {:induction false} PrintedInTurn(s: Statement, ss: seq<Statement>, depth: nat)
    ensures ConfigText(Config([s] + ss), depth) == StatementText(s, depth) + ConfigText(Config(ss), depth)
    ensures ConfigText(Config([]), depth) == ""
  {
    hide StatementText;
    assert ([s] + ss)[1..] == ss;
  }
}
