/**
 * What the tree builder makes of an arbitrary token stream: when it accepts, when it would use
 * an empty stack, and that the tree it returns spells exactly the tokens it has read.
 */
module ConfigTree {
  import opened ConfigRoundTrip
  import opened ConfigSpec
  import opened Options
  import opened Sequences

  function CommentFree(ts: seq<Token>): (r: seq<Token>)
    ensures forall i :: 0 <= i < |r| ==> r[i].kind != COMMENT && r[i] in ts
  {
    if ts == [] then []
    else if ts[0].kind == COMMENT then CommentFree(ts[1..])
    else [ts[0]] + CommentFree(ts[1..])
  }

  lemma {:induction false} CommentFreeConcat(x: seq<Token>, y: seq<Token>)
    requires forall i :: 0 <= i < |x| ==> x[i].kind != COMMENT
    ensures CommentFree(x + y) == x + CommentFree(y)
  {
    if x == [] {
      assert x + y == y;
    } else {
      assert (x + y)[1..] == x[1..] + y;
      CommentFreeConcat(x[1..], y);
    }
  }

  lemma {:induction false} CommentsDoNotMatter(b: Build, ts: seq<Token>)
    ensures BuildAll(b, ts) == BuildAll(b, CommentFree(ts))
    decreases ts
  {
    if ts != [] {
      CommentsDoNotMatter(BuildStep(b, ts[0]), ts[1..]);
      if ts[0].kind != COMMENT {
        assert CommentFree(ts)[1..] == CommentFree(ts[1..]);
      }
    }
  }

  // ---------------------------------------------------------------------------------------
  // The shape of a token stream
  // ---------------------------------------------------------------------------------------

  /** The tokenizer gives punctuation its own text, and normal tokens one that can start a token. */
  predicate Genuine(t: Token) {
    && t.kind != START
    && (t.kind == START_BLOCK ==> t == OPEN)
    && (t.kind == END_BLOCK ==> t == CLOSE)
    && (t.kind == STATEMENT_END ==> t == SEMICOLON)
    && (t.kind == NORMAL ==> t.value != "" && CanStart(t.value[0]))
  }

  lemma {:induction false} LexNormalKind(v: string, s: string)
    ensures Lex(IN_NORMAL, v, s).token.kind in {NORMAL, EOF}
    decreases s
  {
    if s != "" && !EndsNormal(s[0]) {
      LexNormalKind(v + [s[0]], s[1..]);
    }
  }

  lemma {:induction false} NextIsGenuine(s: string)
    ensures Genuine(NextToken(s).token)
    decreases s
  {
    NormalStarts(s);
    if s != "" {
      var c := s[0];
      if c == '#' {
        LexCommentKind([c], s[1..]);
      } else if c == '\"' {
        LexQuotedKeeps(DOUBLE_QUOTE, [c], s[1..]);
      } else if c == '\'' {
        LexQuotedKeeps(SINGLE_QUOTE, [c], s[1..]);
      } else if IsBlank(c) {
        NextIsGenuine(s[1..]);
      } else if CanStart(c) {
        LexNormalKind("" + [c], s[1..]);
      }
    }
  }

  predicate Ends(t: Token) {
    t.kind == EOF || t.kind == ERROR
  }

  /** Genuine tokens without comments, none of which ends the stream. */
  predicate Body(ts: seq<Token>) {
    forall i :: 0 <= i < |ts| ==> Genuine(ts[i]) && ts[i].kind != COMMENT && !Ends(ts[i])
  }

  /** The tokens of a text before the one that ends it, without comments. */
  function BodyOf(s: string): (r: seq<Token>)
    decreases |s|
  {
    var n := NextToken(s);
    if Ends(n.token) then []
    else if n.token.kind == COMMENT then BodyOf(n.rest)
    else [n.token] + BodyOf(n.rest)
  }

  function EndOf(s: string): Token
    decreases |s|
  {
    var n := NextToken(s);
    if Ends(n.token) then n.token else EndOf(n.rest)
  }

  lemma {:induction false} BodyAndEnd(s: string)
    ensures CommentFree(Tokens(s)) == BodyOf(s) + [EndOf(s)]
    ensures Body(BodyOf(s)) && Ends(EndOf(s))
    decreases |s|
  {
    hide Lex, Genuine, CommentFree;
    NextIsGenuine(s);
    var n := NextToken(s);
    if Ends(n.token) {
      CommentFreeStep(n.token, []);
      NoComments();
      assert [n.token] + [] == [n.token] == [] + [n.token];
    } else {
      BodyAndEnd(n.rest);
      CommentFreeStep(n.token, Tokens(n.rest));
      Regroup([n.token], BodyOf(n.rest), [EndOf(n.rest)]);
    }
  }

  lemma {:induction false} NoComments()
    ensures CommentFree([]) == []
  {
  }

  lemma {:induction false} CommentFreeStep(t: Token, ts: seq<Token>)
    ensures CommentFree([t] + ts) == (if t.kind == COMMENT then [] else [t]) + CommentFree(ts)
  {
    assert ([t] + ts)[1..] == ts;
  }

  // ---------------------------------------------------------------------------------------
  // Acceptance
  // ---------------------------------------------------------------------------------------

  predicate LegalAfter(last: TokenType, kind: TokenType) {
    match kind
    case NORMAL => last in {START, STATEMENT_END, START_BLOCK, END_BLOCK, NORMAL}
    case STATEMENT_END => last == NORMAL
    case START_BLOCK => last == NORMAL
    case END_BLOCK => last in {STATEMENT_END, START_BLOCK, END_BLOCK}
    case EOF => last in {STATEMENT_END, END_BLOCK}
    case _ => false
  }

  function KindBefore(ts: seq<Token>, i: nat): TokenType
    requires i <= |ts|
  {
    if i == 0 then START else ts[i - 1].kind
  }

  /** Blocks opened minus blocks closed among the first `k` tokens. */
  function Height(ts: seq<Token>, k: nat): int
    requires k <= |ts|
  {
    if k == 0 then 0
    else Height(ts, k - 1)
         + (if ts[k - 1].kind == START_BLOCK then 1 else if ts[k - 1].kind == END_BLOCK then -1 else 0)
  }

  /** The first `k` tokens may follow each other and never close more than is open. */
  predicate LegalUpTo(ts: seq<Token>, k: nat)
    requires k <= |ts|
  {
    forall i :: 0 <= i < k ==> LegalAt(ts, i) && Height(ts, i) >= 0
  }

  predicate LegalAt(ts: seq<Token>, k: nat)
    requires k < |ts|
  {
    LegalAfter(KindBefore(ts, k), ts[k].kind)
  }

  /** Every frame below the top has a statement whose block is open. */
  predicate OpenFrames(below: Stack) {
    below.Push? ==>
      OpenFrames(below.below) && AllWellFormed(below.top.statements)
      && below.top.pending.Some? && below.top.pending.value != []
  }

  predicate WellStacked(below: Stack, top: Frame, last: TokenType) {
    && OpenFrames(below) && AllWellFormed(top.statements)
    && if last == NORMAL then top.pending.Some? && top.pending.value != [] else top.pending.None?
  }

  function Depth(below: Stack): nat {
    if below.Bottom? then 0 else Depth(below.below) + 1
  }

  // ---------------------------------------------------------------------------------------
  // The tokens a stack stands for
  // ---------------------------------------------------------------------------------------

  function TopTokens(f: Frame): seq<Token> {
    StatementsTokens(f.statements) + NormalTokens(PendingTokens(f))
  }

  function BelowTokens(below: Stack): seq<Token> {
    if below.Bottom? then [] else BelowTokens(below.below) + TopTokens(below.top) + [OPEN]
  }

  function StackTokens(below: Stack, top: Frame): seq<Token> {
    BelowTokens(below) + TopTokens(top)
  }

  function Closers(n: nat): seq<Token> {
    if n == 0 then [] else Closers(n - 1) + [CLOSE]
  }

  lemma {:induction false} StatementsConcat(a: seq<Statement>, b: seq<Statement>)
    ensures StatementsTokens(a + b) == StatementsTokens(a) + StatementsTokens(b)
    ensures AllWellFormed(a + b) <==> AllWellFormed(a) && AllWellFormed(b)
  {
    if a == [] {
      assert a + b == b;
    } else {
      assert (a + b)[1..] == a[1..] + b;
      StatementsConcat(a[1..], b);
    }
  }

  lemma {:induction false} FinishTokens(f: Frame, child: Option<Config>)
    requires f.pending.Some? && f.pending.value != [] && AllWellFormed(f.statements)
    requires child.Some? ==> AllWellFormed(child.value.statements)
    ensures var r := Finish(f, child);
      && r.pending.None? && AllWellFormed(r.statements)
      && TopTokens(r) == TopTokens(f)
           + (if child.Some? then [OPEN] + StatementsTokens(child.value.statements) + [CLOSE] else [SEMICOLON])
  {
    hide NormalTokens, StatementsTokens, AllWellFormed;
    var s := Statement(f.pending.value, child);
    StatementsConcat(f.statements, [s]);
    OneStatement(s);
    assert NormalTokens([]) == [] by { NoNormalTokens(); }
    var a, b := StatementsTokens(f.statements), NormalTokens(s.tokens);
    Regroup(a, b, if child.Some? then [OPEN] + StatementsTokens(child.value.statements) + [CLOSE] else [SEMICOLON]);
  }

  lemma {:induction false} NoNormalTokens()
    ensures NormalTokens([]) == []
  {
  }

  lemma {:induction false} OneStatement(s: Statement)
    ensures StatementsTokens([s]) == StatementTokens(s)
    ensures AllWellFormed([s]) <==> WellFormed(s)
  {
    hide StatementTokens, WellFormed;
    assert [s][1..] == [] && StatementsTokens([]) == [];
    assert AllWellFormed([]);
  }

  /** Popping a frame spells one closing brace. */
  lemma {:induction false} PopTokens(below: Stack, top: Frame)
    requires below.Push? && OpenFrames(below) && AllWellFormed(top.statements) && top.pending.None?
    ensures var r := Finish(below.top, Some(Config(top.statements)));
      StackTokens(below.below, r) == StackTokens(below, top) + [CLOSE]
      && r.pending.None? && AllWellFormed(r.statements)
  {
    hide Finish, TopTokens, AllWellFormed, StatementsTokens;
    FinishTokens(below.top, Some(Config(top.statements)));
    TopIsFinished(top);
    var a, b, c := BelowTokens(below.below), TopTokens(below.top), StatementsTokens(top.statements);
    Regroup(a, b, [OPEN] + c + [CLOSE]);
    Regroup(a + b, [OPEN] + c, [CLOSE]);
    Regroup(a + b, [OPEN], c);
  }

  lemma {:induction false} TopIsFinished(top: Frame)
    requires top.pending.None?
    ensures TopTokens(top) == StatementsTokens(top.statements)
  {
  }

  lemma {:induction false} CloseAllTokens(below: Stack, top: Frame)
    requires OpenFrames(below) && AllWellFormed(top.statements) && top.pending.None?
    ensures StatementsTokens(CloseAll(below, top).statements) == StackTokens(below, top) + Closers(Depth(below))
    ensures AllWellFormed(CloseAll(below, top).statements)
    decreases below
  {
    hide TopTokens, StatementsTokens, AllWellFormed;
    TopIsFinished(top);
    if below.Push? {
      var r := Finish(below.top, Some(Config(top.statements)));
      PopTokens(below, top);
      CloseAllTokens(below.below, r);
      ClosersFront(Depth(below));
      hide StackTokens;
      var x, y := StackTokens(below, top), Closers(Depth(below.below));
      assert x + [CLOSE] + y == x + ([CLOSE] + y);
    }
  }

  lemma {:induction false} ClosersFront(n: nat)
    requires n > 0
    ensures Closers(n) == [CLOSE] + Closers(n - 1)
  {
    if n > 1 {
      ClosersFront(n - 1);
      assert Closers(n) == [CLOSE] + Closers(n - 2) + [CLOSE];
    }
  }

  // ---------------------------------------------------------------------------------------
  // Every prefix of every stream
  // ---------------------------------------------------------------------------------------

  /** The state of the builder after the tokens `ts`, all legal. */
  ghost predicate After(ts: seq<Token>, b: Build) {
    if b.Building? then
      && b.last == KindBefore(ts, |ts|) && WellStacked(b.below, b.top, b.last)
      && Depth(b.below) == Height(ts, |ts|) && StackTokens(b.below, b.top) == ts
    else
      && b.Overclosed? && Height(ts, |ts|) == -1 && ts != [] && ts[|ts| - 1].kind == END_BLOCK
      && AllWellFormed(b.root.statements) && StatementsTokens(b.root.statements) + [CLOSE] == ts
  }

  lemma {:induction false} AfterNormal(below: Stack, top: Frame, last: TokenType, t: Token)
    requires WellStacked(below, top, last) && t.kind == NORMAL && LegalAfter(last, NORMAL)
    ensures var b := BuildStep(Building(below, top, last), t);
      b.Building? && b.last == NORMAL && b.below == below
      && WellStacked(below, b.top, NORMAL) && StackTokens(below, b.top) == StackTokens(below, top) + [t]
  {
    hide StatementsTokens, AllWellFormed, OpenFrames;
    var more := PendingTokens(top) + [t.value];
    var new_top := top.(pending := Some(more));
    assert more[..|more| - 1] == PendingTokens(top);
    Regroup(StatementsTokens(top.statements), NormalTokens(PendingTokens(top)), [t]);
    assert TopTokens(new_top) == TopTokens(top) + [t];
    Regroup(BelowTokens(below), TopTokens(top), [t]);
    assert BuildStep(Building(below, top, last), t) == Building(below, new_top, NORMAL);
  }

  lemma {:induction false} AfterSemicolon(below: Stack, top: Frame)
    requires WellStacked(below, top, NORMAL)
    ensures var r := Finish(top, None);
      BuildStep(Building(below, top, NORMAL), SEMICOLON) == Building(below, r, STATEMENT_END)
      && WellStacked(below, r, STATEMENT_END) && StackTokens(below, r) == StackTokens(below, top) + [SEMICOLON]
  {
    FinishTokens(top, None);
  }

  lemma {:induction false} AfterOpen(below: Stack, top: Frame)
    requires WellStacked(below, top, NORMAL)
    ensures var r := Frame([], None);
      BuildStep(Building(below, top, NORMAL), OPEN) == Building(Push(below, top), r, START_BLOCK)
      && WellStacked(Push(below, top), r, START_BLOCK)
      && StackTokens(Push(below, top), r) == StackTokens(below, top) + [OPEN]
  {
    assert TopTokens(Frame([], None)) == [];
  }

  lemma {:induction false} AfterClose(below: Stack, top: Frame, last: TokenType)
    requires WellStacked(below, top, last) && LegalAfter(last, END_BLOCK)
    ensures var b := BuildStep(Building(below, top, last), CLOSE);
      if below.Bottom? then
        b.Overclosed? && AllWellFormed(b.root.statements)
          && StatementsTokens(b.root.statements) == StackTokens(below, top)
      else
        && b.Building? && b.last == END_BLOCK && b.below == below.below
        && WellStacked(b.below, b.top, END_BLOCK) && StackTokens(b.below, b.top) == StackTokens(below, top) + [CLOSE]
  {
    if below.Push? {
      PopTokens(below, top);
    }
  }

  lemma {:induction false} AfterNext(ts: seq<Token>, t: Token, b: Build)
    requires After(ts, b) && b.Building? && Genuine(t) && t.kind != COMMENT && !Ends(t)
    requires LegalAfter(KindBefore(ts, |ts|), t.kind)
    ensures After(ts + [t], BuildStep(b, t))
  {
    hide WellStacked, StackTokens, BuildStep;
    HeightNext(ts, t);
    match t.kind
    case NORMAL => AfterNormal(b.below, b.top, b.last, t);
    case STATEMENT_END => AfterSemicolon(b.below, b.top);
    case START_BLOCK => AfterOpen(b.below, b.top);
    case END_BLOCK => AfterClose(b.below, b.top, b.last);
  }

  lemma {:induction false} HeightSame(a: seq<Token>, b: seq<Token>, k: nat)
    requires k <= |a| && k <= |b| && a[..k] == b[..k]
    ensures Height(a, k) == Height(b, k)
  {
    if k > 0 {
      assert a[..k - 1] == a[..k][..k - 1] == b[..k - 1];
      assert a[k - 1] == a[..k][k - 1] == b[k - 1];
      HeightSame(a, b, k - 1);
    }
  }

  lemma {:induction false} HeightNext(ts: seq<Token>, t: Token)
    ensures Height(ts + [t], |ts| + 1) == Height(ts, |ts|)
      + (if t.kind == START_BLOCK then 1 else if t.kind == END_BLOCK then -1 else 0)
  {
    HeightSame(ts, ts + [t], |ts|);
  }

  /** As long as the tokens are legal, the builder keeps step with them. */
  lemma {:induction false} BuilderKeepsStep(ts: seq<Token>, k: nat)
    requires Body(ts) && k <= |ts| && LegalUpTo(ts, k)
    ensures After(ts[..k], BuildAll(Begin(), ts[..k]))
  {
    hide After, BuildAll, Genuine;
    if k == 0 {
      AtBeginning();
    } else {
      BuilderKeepsStep(ts, k - 1);
      StepAt(ts, k - 1);
      var b := BuildAll(Begin(), ts[..k - 1]);
      assert LegalAt(ts, k - 1) && Height(ts, k - 1) >= 0;
      HeightSame(ts, ts[..k - 1], k - 1);
      NotOverclosed(ts[..k - 1], b);
      AfterNext(ts[..k - 1], ts[k - 1], b);
    }
  }

  lemma {:induction false} AtBeginning()
    ensures After([], BuildAll(Begin(), []))
  {
    assert StatementsTokens([]) == [] && StackTokens(Bottom, Frame([], None)) == [];
  }

  lemma {:induction false} NotOverclosed(ts: seq<Token>, b: Build)
    requires After(ts, b) && Height(ts, |ts|) >= 0
    ensures b.Building?
  {
  }

  lemma {:induction false} StepAt(ts: seq<Token>, k: nat)
    requires k < |ts|
    ensures ts[..k + 1] == ts[..k] + [ts[k]]
    ensures BuildAll(Begin(), ts[..k + 1]) == BuildStep(BuildAll(Begin(), ts[..k]), ts[k])
  {
    assert ts[..k + 1] == ts[..k] + [ts[k]];
    BuildConcat(Begin(), ts[..k], [ts[k]]);
    BuildOne(BuildAll(Begin(), ts[..k]), ts[k]);
  }

  lemma {:induction false} FinalStays(b: Build, ts: seq<Token>)
    requires b.Rejected? || b.Undefined? || b.Accepted?
    ensures BuildAll(b, ts) == b
    decreases ts
  {
    if ts != [] {
      FinalStays(b, ts[1..]);
    }
  }

  /** The first token that is illegal, or that finds the stack empty, decides. */
  lemma {:induction false} Trouble(ts: seq<Token>, k: nat, more: seq<Token>)
    requires Body(ts) && k < |ts| && LegalUpTo(ts, k) && !(LegalAt(ts, k) && Height(ts, k) >= 0)
    ensures BuildAll(Begin(), ts + more) == if LegalAt(ts, k) then Undefined else Rejected
  {
    hide BuildAll, StackTokens, WellStacked;
    BuilderKeepsStep(ts, k);
    StepAt(ts, k);
    HeightSame(ts, ts[..k], k);
    assert ts + more == ts[..k + 1] + (ts[k + 1..] + more);
    BuildConcat(Begin(), ts[..k + 1], ts[k + 1..] + more);
    FinalStays(BuildStep(BuildAll(Begin(), ts[..k]), ts[k]), ts[k + 1..] + more);
  }

  /** The tree and the tokens agree, up to blocks left open and one closing brace too many. */
  ghost predicate Spells(c: Config, ts: seq<Token>) {
    var h := Height(ts, |ts|);
    if h >= 0 then StatementsTokens(c.statements) == ts + Closers(h)
    else StatementsTokens(c.statements) + [CLOSE] == ts
  }

  /** The end of a stream whose tokens were all legal. */
  lemma {:induction false} Ending(ts: seq<Token>, end: Token)
    requires Body(ts) && LegalUpTo(ts, |ts|) && Ends(end)
    ensures var b := BuildAll(Begin(), ts + [end]);
      if LegalAfter(KindBefore(ts, |ts|), end.kind) then
        b.Accepted? && AllWellFormed(b.config.statements) && Spells(b.config, ts)
      else b == Rejected
  {
    hide BuildAll, LegalUpTo, StackTokens, StatementsTokens, AllWellFormed, CloseAll, Body;
    BuilderKeepsStep(ts, |ts|);
    assert ts[..|ts|] == ts;
    var b := BuildAll(Begin(), ts);
    BuildConcat(Begin(), ts, [end]);
    BuildOne(b, end);
    if b.Building? && b.last != NORMAL {
      CloseAllTokens(b.below, b.top);
    }
  }

  /** Every token is legal where it stands, and the stream ends at a legal end of file. */
  predicate Acceptable(ts: seq<Token>, end: Token) {
    LegalUpTo(ts, |ts|) && LegalAfter(KindBefore(ts, |ts|), end.kind)
  }

  /** Some token would be taken with the stack empty. */
  predicate UsesEmptyStack(ts: seq<Token>) {
    exists k {:trigger LegalUpTo(ts, k)} :: 0 <= k < |ts| && LegalUpTo(ts, k) && LegalAt(ts, k) && Height(ts, k) < 0
  }

  lemma {:induction false} FirstTrouble(ts: seq<Token>, k: nat) returns (j: nat)
    requires k <= |ts| && !LegalUpTo(ts, k)
    ensures j < k && LegalUpTo(ts, j) && !(LegalAt(ts, j) && Height(ts, j) >= 0)
    decreases k
  {
    if LegalUpTo(ts, k - 1) {
      j := k - 1;
    } else {
      j := FirstTrouble(ts, k - 1);
    }
  }

  /** The outcome of a parse, exactly; and what the tree is when there is one. */
  lemma {:induction false} OutcomeExactly(s: string)
    ensures var ts, end, b := BodyOf(s), EndOf(s), ParseText(s);
      && (b.Accepted? <==> Acceptable(ts, end))
      && (b.Undefined? <==> UsesEmptyStack(ts))
      && (b.Rejected? <==> !Acceptable(ts, end) && !UsesEmptyStack(ts))
      && (b.Accepted? ==> Spells(b.config, ts) && AllWellFormed(b.config.statements))
  {
    BodyAndEnd(s);
    CommentsDoNotMatter(Begin(), Tokens(s));
    var ts, end := BodyOf(s), EndOf(s);
    if UsesEmptyStack(ts) {
      var k :| 0 <= k < |ts| && LegalUpTo(ts, k) && LegalAt(ts, k) && Height(ts, k) < 0;
      Trouble(ts, k, [end]);
    } else if LegalUpTo(ts, |ts|) {
      Ending(ts, end);
    } else {
      var j := FirstTrouble(ts, |ts|);
      Trouble(ts, j, [end]);
    }
  }
}
