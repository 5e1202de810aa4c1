/** Which token streams the parser accepts, by a grammar: the tokens of a configuration, cut off somewhere. */
module ConfigGrammar {
  import opened ConfigRoundTrip
  import opened ConfigSpec
  import opened ConfigTree
  import opened Options

  /**
   * The tokens are those of these statements, but for `n` closing braces that are missing at the
   * end, or for one that is there too many.
   */
  ghost predicate TokensOf(ts: seq<Token>, ss: seq<Statement>, n: nat) {
    && AllWellFormed(ss)
    && (|| StatementsTokens(ss) == ts + Closers(n)
        || (ss != [] && n == 0 && ts == StatementsTokens(ss) + [CLOSE]))
  }

  /** The last token ends a statement or a block. */
  predicate EndsWell(ts: seq<Token>) {
    ts != [] && (ts[|ts| - 1].kind == STATEMENT_END || ts[|ts| - 1].kind == END_BLOCK)
  }

  lemma {:induction false} LastKind(ts: seq<Token>)
    requires ts != [] && ts[|ts| - 1].kind != COMMENT && BuildAll(Begin(), ts).Building?
    ensures BuildAll(Begin(), ts).last == ts[|ts| - 1].kind
  {
    hide BuildAll;
    var front, t := ts[..|ts| - 1], ts[|ts| - 1];
    assert ts == front + [t];
    BuildConcat(Begin(), front, [t]);
    BuildOne(BuildAll(Begin(), front), t);
  }

  lemma {:induction false} ClosersFinish(b: Build, n: nat)
    requires BuildAll(b, Closers(n)).Building?
    ensures b.Building?
    decreases n
  {
    hide BuildStep;
    if n == 0 {
      assert Closers(0) == [];
    } else {
      ClosersFront(n);
      assert Closers(n)[0] == CLOSE && Closers(n)[1..] == Closers(n - 1);
      ClosersFinish(BuildStep(b, CLOSE), n - 1);
      ClosingNeedsBlock(b);
    }
  }

  lemma {:induction false} ClosingNeedsBlock(b: Build)
    requires BuildStep(b, CLOSE).Building?
    ensures b.Building?
  {
  }

  /** What the builder has made of such tokens accepts the end of the file. */
  lemma {:induction false} GrammarIsAccepted(ts: seq<Token>, ss: seq<Statement>, n: nat)
    requires TokensOf(ts, ss, n) && EndsWell(ts)
    ensures BuildStep(BuildAll(Begin(), ts), Token(EOF, "")).Accepted?
  {
    hide BuildAll, StatementsTokens, AllWellFormed;
    BuildStatements(Bottom, [], START, ss);
    assert [] + ss == ss;
    if StatementsTokens(ss) == ts + Closers(n) {
      BuildConcat(Begin(), ts, Closers(n));
      ClosersFinish(BuildAll(Begin(), ts), n);
      LastKind(ts);
    } else {
      BuildConcat(Begin(), StatementsTokens(ss), [CLOSE]);
      BuildOne(BuildAll(Begin(), StatementsTokens(ss)), CLOSE);
    }
  }

  lemma {:induction false} EndValueIsIgnored(b: Build, t: Token)
    requires t.kind == EOF
    ensures BuildStep(b, t) == BuildStep(b, Token(EOF, ""))
  {
  }

  /**
   * A text is accepted if and only if it reads to the end of the file, and its tokens without the
   * comments are those of a configuration, cut off behind a statement or a block, or with one
   * closing brace too many.
   */
  lemma {:induction false} AcceptedExactly(s: string)
    ensures ParseText(s).Accepted? <==>
      EndOf(s).kind == EOF && EndsWell(BodyOf(s)) && exists ss, n: nat :: TokensOf(BodyOf(s), ss, n)
  {
    hide BuildAll, BodyOf, EndOf, Tokens, UsesEmptyStack, LegalUpTo, BuildStep, Genuine, StatementsTokens,
         AllWellFormed;
    var ts, end := BodyOf(s), EndOf(s);
    OutcomeExactly(s);
    BodyAndEnd(s);
    if ParseText(s).Accepted? {
      var c := ParseText(s).config;
      var h := Height(ts, |ts|);
      NotEmpty(c, ts);
      assert TokensOf(ts, c.statements, if h >= 0 then h else 0);
    } else if end.kind == EOF && EndsWell(ts) && exists ss, n: nat :: TokensOf(ts, ss, n) {
      var ss, n: nat :| TokensOf(ts, ss, n);
      GrammarIsAccepted(ts, ss, n);
      CommentsDoNotMatter(Begin(), Tokens(s));
      BuildConcat(Begin(), ts, [end]);
      BuildOne(BuildAll(Begin(), ts), end);
      EndValueIsIgnored(BuildAll(Begin(), ts), end);
    }
  }

  lemma {:induction false} NotEmpty(c: Config, ts: seq<Token>)
    requires Spells(c, ts) && LegalUpTo(ts, |ts|)
    ensures Height(ts, |ts|) < 0 ==> c.statements != []
  {
    assert ts != [] ==> LegalAt(ts, 0);
    assert [] + [CLOSE] == [CLOSE] && StatementsTokens([]) == [];
  }
}
