/**
 * The tokenizer, parser and printer of the configuration file, over a stream and a tree of
 * objects.  `ParseToken` is proved to be `NextToken`, `Parse` to be `ParseText`, and
 * `ToString` to be `ConfigText`.
 */
module ConfigParser {
  import opened ConfigRoundTrip
  import opened ConfigSpec
  import opened ConfigTree
  import opened Options
  import opened Sequences
  import opened Streams

  /** One character of a quoted token.  `START` means that the token goes on. */
  method TakeQuoted(input: InputStream, state: LexState, sofar: string, c: char)
    returns (kind: TokenType, value: string)
    requires input.Valid() && !input.failed && input.pos > 0 && IsQuoted(state) && sofar != ""
    modifies input
    ensures input.Valid() && input.Rest() == old(input.Rest()) && value != "" && kind in {START, NORMAL, ERROR}
    ensures Lex(state, sofar, [c] + input.Rest()) ==
      if kind == START then Lex(state, value, input.Rest()) else Lexed(Token(kind, value), input.Rest())
  {
    value := sofar + [c];
    assert ([c] + input.Rest())[1..] == input.Rest();
    assert value[..|sofar|] == sofar && value[..|value| - 2] == sofar[..|sofar| - 1];
    kind := START;
    if c == QuoteOf(state) {
      var next := input.Peek();
      if EndsQuoted(next) {
        kind := NORMAL;
      } else if value[|value| - 2] == '\\' {
        value := value[..|value| - 2] + [c];
      } else {
        kind := ERROR;
      }
    } else if c == '\\' {
      var next := input.Peek();
      if next == '\\' {
        value := value[..|value| - 1];
      }
    }
  }

  method ParseToken(input: InputStream) returns (kind: TokenType, value: string)
    requires input.Valid()
    modifies input
    ensures input.Valid()
    ensures NextToken(old(input.Rest())) == Lexed(Token(kind, value), input.Rest())
  {
    ghost var target := NextToken(input.Rest());
    hide NextToken;
    var state := INITIAL_WHITESPACE;
    value := "";
    while input.Good()
      invariant input.Valid() && (IsQuoted(state) ==> value != "")
      invariant target == Lex(state, value, input.Rest())
      decreases |input.Rest()|, !input.failed
    {
      ghost var before, sofar := input.Rest(), value;
      var c := input.Get();
      if !input.Good() {
        break;
      }
      assert before[0] == c && before[1..] == input.Rest();
      match state
      case INITIAL_WHITESPACE =>
        if c == '{' { return START_BLOCK, [c]; }
        else if c == '}' { return END_BLOCK, [c]; }
        else if c == '#' { value, state := [c], IN_COMMENT; }
        else if c == '\"' { value, state := [c], DOUBLE_QUOTE; }
        else if c == '\'' { value, state := [c], SINGLE_QUOTE; }
        else if c == ';' { return STATEMENT_END, [c]; }
        else if !IsBlank(c) { value, state := value + [c], IN_NORMAL; }
      case IN_COMMENT =>
        if c == '\n' || c == '\r' { return COMMENT, value; }
        value := value + [c];
      case IN_NORMAL =>
        if EndsNormal(c) {
          input.Unget();
          assert input.Rest() == before;
          return NORMAL, value;
        }
        value := value + [c];
      case _ =>
        kind, value := TakeQuoted(input, state, value, c);
        if kind != START {
          return;
        }
    }
    kind := if IsQuoted(state) then ERROR else EOF;
  }

  // ---------------------------------------------------------------------------------------
  // The tree of objects
  // ---------------------------------------------------------------------------------------

  class NginxConfigStatement {
    var tokens: seq<string>
    var child: NginxConfig?
    ghost var model: Statement

    constructor ()
      ensures tokens == [] && child == null
    {
      tokens, child := [], null;
    }
  }

  class NginxConfig {
    var statements: seq<NginxConfigStatement>
    ghost var model: Config

    constructor ()
      ensures statements == []
    {
      statements := [];
    }
  }

  /** The objects of a finished part of the tree: each is what its model says. */
  ghost predicate Finished(ss: set<NginxConfigStatement>, cs: set<NginxConfig>)
    reads ss, cs
  {
    && (forall s :: s in ss ==>
          if s.child == null then s.model == Statement(s.tokens, None)
          else s.child in cs && s.model == Statement(s.tokens, Some(s.child.model)))
    && (forall c :: c in cs ==>
          |c.statements| == |c.model.statements|
          && forall j :: 0 <= j < |c.statements| ==>
               c.statements[j] in ss && c.statements[j].model == c.model.statements[j])
  }

  /** The object `c` holds the frame `f`; the block of its pending statement is `child`. */
  ghost predicate HoldsFrame(ss: set<NginxConfigStatement>, c: NginxConfig, f: Frame, child: NginxConfig?)
    reads c, c.statements
  {
    && |c.statements| == |f.statements| + (if f.pending.Some? then 1 else 0)
    && (forall j :: 0 <= j < |f.statements| ==> c.statements[j] in ss && c.statements[j].model == f.statements[j])
    && (f.pending.Some? ==>
          var p := c.statements[|f.statements|];
          p !in ss && p.tokens == f.pending.value && p.child == child)
  }

  /** The first `n` objects of the stack hold the frames of `below`; the next object is `child`. */
  ghost predicate HoldsStack(ss: set<NginxConfigStatement>, stack: seq<NginxConfig>, n: nat,
                             below: Stack, child: NginxConfig)
    requires n <= |stack|
    reads set i | 0 <= i < n :: stack[i]
    reads set i, j | 0 <= i < n && 0 <= j < |stack[i].statements| :: stack[i].statements[j]
  {
    match below
    case Bottom => n == 0
    case Push(rest, top) =>
      && n > 0 && top.pending.Some?
      && HoldsFrame(ss, stack[n - 1], top, child) && HoldsStack(ss, stack, n - 1, rest, stack[n - 1])
  }

  ghost predicate DistinctConfigs(stack: seq<NginxConfig>, cs: set<NginxConfig>) {
    && (forall i, j :: 0 <= i < j < |stack| ==> stack[i] != stack[j])
    && (forall i :: 0 <= i < |stack| ==> stack[i] !in cs)
  }

  /** The stack of the program represents the state `b` of the builder. */
  ghost predicate Represents(ss: set<NginxConfigStatement>, cs: set<NginxConfig>, stack: seq<NginxConfig>, b: Build)
    requires b.Building?
    reads stack, ss, cs
    reads set i, j | 0 <= i < |stack| && 0 <= j < |stack[i].statements| :: stack[i].statements[j]
  {
    && stack != [] && DistinctConfigs(stack, cs) && Finished(ss, cs)
    && HoldsFrame(ss, stack[|stack| - 1], b.top, null)
    && HoldsStack(ss, stack, |stack| - 1, b.below, stack[|stack| - 1])
  }

  method ToString(c: NginxConfig, depth: nat, ghost ss: set<NginxConfigStatement>, ghost cs: set<NginxConfig>)
    returns (r: string)
    requires Finished(ss, cs) && c in cs
    ensures r == ConfigText(c.model, depth)
    decreases c.model, 1
  {
    r := "";
    ghost var all := c.model.statements;
    for i := 0 to |c.statements|
      invariant r + StatementsText(all[i..], depth) == ConfigText(c.model, depth)
    {
      assert all[i..][0] == all[i] && all[i..][1..] == all[i + 1..];
      var t := StatementToString(c.statements[i], depth, ss, cs);
      r := r + t;
    }
    assert all[|all|..] == [];
  }

  lemma {:induction false} NothingJoined(before: string)
    ensures before + JoinTokens([]) == before
  {
  }

  lemma {:induction false} JoinNext(before: string, ts: seq<string>, i: nat)
    requires i < |ts|
    ensures before + JoinTokens(ts[..i + 1]) ==
      before + JoinTokens(ts[..i]) + (if i != 0 then " " else "") + ts[i]
    ensures i == 0 ==> before + JoinTokens(ts[..i + 1]) == before + JoinTokens(ts[..i]) + ts[i]
  {
    var a := ts[..i + 1];
    assert a[..i] == ts[..i] && a[i] == ts[i];
    Regroup(before, JoinTokens(ts[..i]), " ");
    Regroup(before, JoinTokens(ts[..i]) + " ", ts[i]);
  }

  lemma {:induction false} Block(front: string, t: string, indent: string)
    ensures front + " {\n" + t + indent + "}" == front + (" {\n" + t + indent + "}")
  {
    Regroup(front, " {\n", t);
    Regroup(front, " {\n" + t, indent);
    Regroup(front, " {\n" + t + indent, "}");
  }

  method StatementToString(s: NginxConfigStatement, depth: nat, ghost ss: set<NginxConfigStatement>,
                           ghost cs: set<NginxConfig>)
    returns (r: string)
    requires Finished(ss, cs) && s in ss
    ensures r == StatementText(s.model, depth)
    decreases s.model, 0
  {
    hide JoinTokens;
    r := "";
    for i := 0 to depth
      invariant r == Indent(i)
    {
      r := r + "  ";
    }
    NothingJoined(Indent(depth));
    for i := 0 to |s.tokens|
      invariant r == Indent(depth) + JoinTokens(s.tokens[..i])
    {
      JoinNext(Indent(depth), s.tokens, i);
      if i != 0 {
        r := r + " ";
      }
      r := r + s.tokens[i];
    }
    assert s.tokens[..|s.tokens|] == s.tokens;
    if s.child != null {
      r := r + " {\n";
      var t := ToString(s.child, depth + 1, ss, cs);
      r := r + t;
      ghost var before := r;
      for i := 0 to depth
        invariant r == before + Indent(i)
      {
        Regroup(before, Indent(i), "  ");
        r := r + "  ";
      }
      Block(Indent(depth) + JoinTokens(s.tokens), t, Indent(depth));
      r := r + "}";
    } else {
      r := r + ";";
    }
    r := r + "\n";
  }

  // ---------------------------------------------------------------------------------------
  // The parser
  // ---------------------------------------------------------------------------------------

  /** A statement below the top is finished, or has the next object of the stack as its block. */
  lemma {:induction false} StatementsBelow(ss: set<NginxConfigStatement>, stack: seq<NginxConfig>,
                                           n: nat, below: Stack, child: NginxConfig)
    requires n <= |stack| && HoldsStack(ss, stack, n, below, child)
    ensures forall i, j :: 0 <= i < n && 0 <= j < |stack[i].statements| ==>
      stack[i].statements[j] in ss || stack[i].statements[j].child == (if i == n - 1 then child else stack[i + 1])
    decreases below
  {
    if n > 0 {
      StatementsBelow(ss, stack, n - 1, below.below, stack[n - 1]);
    }
  }

  /** Finishing a statement that none of these frames is working on changes nothing for them. */
  lemma {:induction false} FinishElsewhere(ss: set<NginxConfigStatement>, p: NginxConfigStatement,
                                           stack: seq<NginxConfig>, n: nat,
                                           below: Stack, child: NginxConfig)
    requires n <= |stack| && HoldsStack(ss, stack, n, below, child)
    requires forall i :: 0 < i < n ==> p.child != stack[i]
    requires p.child != child
    ensures HoldsStack(ss + {p}, stack, n, below, child)
    decreases below
  {
    if n > 1 {
      FinishElsewhere(ss, p, stack, n - 1, below.below, stack[n - 1]);
    }
  }

  lemma {:induction false} StackPrefix(ss: set<NginxConfigStatement>, a: seq<NginxConfig>,
                                       b: seq<NginxConfig>, n: nat, below: Stack, child: NginxConfig)
    requires n <= |a| && n <= |b| && a[..n] == b[..n] && HoldsStack(ss, a, n, below, child)
    ensures HoldsStack(ss, b, n, below, child)
    decreases below
  {
    if n > 0 {
      assert a[n - 1] == a[..n][n - 1] == b[..n][n - 1] == b[n - 1];
      assert a[..n - 1] == a[..n][..n - 1] == b[..n - 1];
      StackPrefix(ss, a, b, n - 1, below.below, a[n - 1]);
    }
  }

  /** Everything the parser may change: the objects of the stack and their statements. */
  ghost predicate Owns(made: set<object>, stack: seq<NginxConfig>)
    reads stack
  {
    forall i :: 0 <= i < |stack| ==>
      stack[i] in made && forall j :: 0 <= j < |stack[i].statements| ==> stack[i].statements[j] in made
  }

  /** A normal token: starts a statement unless the last token was normal too. */
  method TakeNormal(stack: seq<NginxConfig>, token: string, last: TokenType, ghost b: Build,
                    ghost ss: set<NginxConfigStatement>, ghost cs: set<NginxConfig>, ghost made: set<object>)
    returns (ghost made': set<object>)
    requires b.Building? && Represents(ss, cs, stack, b) && Owns(made, stack)
    requires last == b.last && LegalAfter(last, NORMAL) && (last == NORMAL <==> b.top.pending.Some?)
    modifies made
    ensures var r := BuildStep(b, Token(NORMAL, token)); r.Building? && Represents(ss, cs, stack, r)
    ensures Owns(made', stack) && made <= made' && fresh(made' - made)
  {
    hide Finished, HoldsStack;
    made' := made;
    var top := stack[|stack| - 1];
    StatementsBelow(ss, stack, |stack| - 1, b.below, top);
    if last != NORMAL {
      var s := new NginxConfigStatement();
      top.statements := top.statements + [s];
      made' := made' + {s};
    }
    var s := top.statements[|top.statements| - 1];
    s.tokens := s.tokens + [token];
  }

  ghost method SettleStatement(p: NginxConfigStatement, ss: set<NginxConfigStatement>, cs: set<NginxConfig>)
    requires Finished(ss, cs) && p !in ss && p.child == null
    modifies p`model
    ensures p.model == Statement(p.tokens, None) && Finished(ss + {p}, cs)
  {
    p.model := Statement(p.tokens, None);
  }

  /** The end of a statement changes no object; it is the model of the statement that is settled. */
  ghost method EndStatement(stack: seq<NginxConfig>, t: Token, b: Build, ss: set<NginxConfigStatement>,
                            cs: set<NginxConfig>, made: set<object>)
    returns (ss': set<NginxConfigStatement>)
    requires b.Building? && Represents(ss, cs, stack, b) && Owns(made, stack)
    requires b.last == NORMAL && b.top.pending.Some? && t.kind == STATEMENT_END
    modifies made
    ensures var r := BuildStep(b, t); r.Building? && Represents(ss', cs, stack, r)
    ensures Owns(made, stack) && ss <= ss' && ss' - ss <= made
  {
    hide Finished, HoldsStack;
    var top := stack[|stack| - 1];
    var p := top.statements[|b.top.statements|];
    StatementsBelow(ss, stack, |stack| - 1, b.below, top);
    SettleStatement(p, ss, cs);
    ss' := ss + {p};
    FinishElsewhere(ss, p, stack, |stack| - 1, b.below, top);
  }

  lemma {:induction false} EmptyFrame(ss: set<NginxConfigStatement>, c: NginxConfig)
    requires c.statements == []
    ensures HoldsFrame(ss, c, Frame([], None), null)
  {
  }

  lemma {:induction false} PushFrame(ss: set<NginxConfigStatement>, stack: seq<NginxConfig>, n: nat,
                                     below: Stack, top: Frame, child: NginxConfig)
    requires 0 < n <= |stack| && HoldsStack(ss, stack, n - 1, below, stack[n - 1])
    requires HoldsFrame(ss, stack[n - 1], top, child) && top.pending.Some?
    ensures HoldsStack(ss, stack, n, Push(below, top), child)
  {
  }

  /** An empty block on top of the stack, in the pending statement of the block below. */
  lemma {:induction false} BlockOnTop(ss: set<NginxConfigStatement>, cs: set<NginxConfig>,
                                      stack: seq<NginxConfig>, block: NginxConfig, b: Build)
    requires b.Building? && b.top.pending.Some? && block.statements == []
    requires stack != [] && DistinctConfigs(stack + [block], cs) && Finished(ss, cs)
    requires HoldsFrame(ss, stack[|stack| - 1], b.top, block)
    requires HoldsStack(ss, stack, |stack| - 1, b.below, stack[|stack| - 1])
    ensures Represents(ss, cs, stack + [block], Building(Push(b.below, b.top), Frame([], None), START_BLOCK))
  {
    hide Finished, HoldsStack, HoldsFrame, DistinctConfigs;
    var new_stack := stack + [block];
    EmptyFrame(ss, block);
    StackPrefix(ss, stack, new_stack, |stack| - 1, b.below, stack[|stack| - 1]);
    PushFrame(ss, new_stack, |stack|, b.below, b.top, block);
  }

  /** An opening brace: the pending statement gets a block, which becomes the top of the stack. */
  method OpenBlock(stack: seq<NginxConfig>, ghost t: Token, ghost b: Build,
                   ghost ss: set<NginxConfigStatement>, ghost cs: set<NginxConfig>, ghost made: set<object>)
    returns (stack': seq<NginxConfig>, ghost made': set<object>)
    requires b.Building? && Represents(ss, cs, stack, b) && Owns(made, stack)
    requires b.last == NORMAL && b.top.pending.Some? && t.kind == START_BLOCK
    modifies made
    ensures var r := BuildStep(b, t); r.Building? && Represents(ss, cs, stack', r)
    ensures Owns(made', stack') && made <= made' && fresh(made' - made) && stack <= stack'
  {
    hide Finished, HoldsStack;
    var top := stack[|stack| - 1];
    StatementsBelow(ss, stack, |stack| - 1, b.below, top);
    var block := new NginxConfig();
    var p := top.statements[|top.statements| - 1];
    p.child := block;
    stack' := stack + [block];
    made' := made + {block};
    BlockOnTop(ss, cs, stack, block, b);
  }

  /** What a stack with another block below looks like: the pending statement there holds the top. */
  lemma {:induction false} BlockBelow(ss: set<NginxConfigStatement>, cs: set<NginxConfig>,
                                      stack: seq<NginxConfig>, b: Build)
    requires b.Building? && Represents(ss, cs, stack, b) && b.below.Push?
    ensures |stack| >= 2
    ensures var n, k := |stack|, |b.below.top.statements|;
      var parent := stack[n - 2];
      && |parent.statements| == k + 1 && parent.statements[k] !in ss && b.below.top.pending.Some?
      && HoldsFrame(ss, parent, b.below.top, stack[n - 1])
      && HoldsStack(ss, stack, n - 2, b.below.below, parent)
      && (forall i :: 0 < i < n - 1 ==> parent.statements[k].child != stack[i])
  {
  }

  /** A block and the statement that it belongs to are finished together. */
  ghost method SettleTop(top: NginxConfig, frame: Frame, p: NginxConfigStatement, tokens: seq<string>,
                         ss: set<NginxConfigStatement>, cs: set<NginxConfig>)
    requires Finished(ss, cs) && HoldsFrame(ss, top, frame, null) && frame.pending.None?
    requires p !in ss && p.child == top && top !in cs && p.tokens == tokens
    modifies p`model, top`model
    ensures p.model == Statement(tokens, Some(Config(frame.statements))) && top.model == Config(frame.statements)
    ensures Finished(ss + {p}, cs + {top})
  {
    top.model := Config(frame.statements);
    p.model := Statement(tokens, Some(top.model));
  }

  /** A closing brace with another block below: the finished block is settled and popped. */
  ghost method SettleBlock(stack: seq<NginxConfig>, b: Build, ss: set<NginxConfigStatement>,
                           cs: set<NginxConfig>, made: set<object>)
    returns (ss': set<NginxConfigStatement>, cs': set<NginxConfig>)
    requires b.Building? && Represents(ss, cs, stack, b) && Owns(made, stack)
    requires b.below.Push? && b.top.pending.None?
    modifies made
    ensures |stack| >= 2
    ensures forall l :: Represents(ss', cs', stack[..|stack| - 1],
      Building(b.below.below, Finish(b.below.top, Some(Config(b.top.statements))), l))
    ensures Owns(made, stack[..|stack| - 1]) && ss <= ss' && ss' - ss <= made && cs <= cs' && cs' - cs <= made
  {
    hide Finished, HoldsStack;
    BlockBelow(ss, cs, stack, b);
    var n := |stack|;
    var top, parent := stack[n - 1], stack[n - 2];
    var p := parent.statements[|b.below.top.statements|];
    StatementsBelow(ss, stack, n - 2, b.below.below, parent);
    SettleTop(top, b.top, p, p.tokens, ss, cs);
    ss', cs' := ss + {p}, cs + {top};
    FinishElsewhere(ss, p, stack, n - 2, b.below.below, parent);
    StackPrefix(ss', stack, stack[..n - 1], n - 2, b.below.below, parent);
  }

  /** The blocks still open at the end of the file are settled as they stand. */
  ghost method SettleAll(stack: seq<NginxConfig>, b: Build, ss: set<NginxConfigStatement>,
                         cs: set<NginxConfig>, made: set<object>)
    returns (ss': set<NginxConfigStatement>, cs': set<NginxConfig>)
    requires b.Building? && Represents(ss, cs, stack, b) && Owns(made, stack) && b.top.pending.None?
    modifies made
    ensures Finished(ss', cs') && stack[0] in cs' && stack[0].model == CloseAll(b.below, b.top)
    ensures ss' - ss <= made && cs' - cs <= made
    ensures b.below.Bottom? ==> |stack| == 1
    decreases |stack|
  {
    if b.below.Bottom? {
      stack[0].model := Config(b.top.statements);
      ss', cs' := ss, cs + {stack[0]};
    } else {
      ss', cs' := SettleBlock(stack, b, ss, cs, made);
      var r := Building(b.below.below, Finish(b.below.top, Some(Config(b.top.statements))), END_BLOCK);
      ss', cs' := SettleAll(stack[..|stack| - 1], r, ss', cs', made);
    }
  }

  /** What the loop keeps: the objects represent the state of the builder. */
  ghost predicate Parsing(ss: set<NginxConfigStatement>, cs: set<NginxConfig>, made: set<object>,
                          stack: seq<NginxConfig>,
                          config: NginxConfig, last: TokenType, b: Build)
    reads stack, ss, cs
    reads set i, j | 0 <= i < |stack| && 0 <= j < |stack[i].statements| :: stack[i].statements[j]
  {
    match b
    case Building(_, top, l) =>
      && last == l && (last == NORMAL <==> top.pending.Some?)
      && Represents(ss, cs, stack, b) && Owns(made, stack) && stack[0] == config
    case Overclosed(root) =>
      last == END_BLOCK && stack == [] && Finished(ss, cs) && config in cs && config.model == root
    case _ => false
  }

  lemma {:induction false} StackInUse(ss: set<NginxConfigStatement>, cs: set<NginxConfig>,
                                      stack: seq<NginxConfig>, b: Build)
    requires b.Building? && Represents(ss, cs, stack, b)
    ensures stack != []
  {
  }

  /** What a legal token does to the stack and the tree. */
  method TakeToken(stack: seq<NginxConfig>, config: NginxConfig, kind: TokenType, token: string,
                   last: TokenType, ghost b: Build,
                   ghost ss: set<NginxConfigStatement>, ghost cs: set<NginxConfig>, ghost made: set<object>)
    returns (stack': seq<NginxConfig>, ghost ss': set<NginxConfigStatement>, ghost cs': set<NginxConfig>,
             ghost made': set<object>)
    requires Parsing(ss, cs, made, stack, config, last, b) && b.Building? && ss <= made && cs <= made
    requires kind in {NORMAL, STATEMENT_END, START_BLOCK, END_BLOCK} && LegalAfter(last, kind)
    modifies made
    ensures Parsing(ss', cs', made', stack', config, kind, BuildStep(b, Token(kind, token)))
    ensures made <= made' && fresh(made' - made) && ss' <= made' && cs' <= made'
  {
    hide Represents, Owns, Finished;
    ghost var t := Token(kind, token);
    ghost var r := BuildStep(b, t);
    StackInUse(ss, cs, stack, b);
    stack', ss', cs', made' := stack, ss, cs, made;
    if kind == NORMAL {
      made' := TakeNormal(stack, token, last, b, ss, cs, made);
    } else if kind == STATEMENT_END {
      ss' := EndStatement(stack, t, b, ss, cs, made);
      assert r == Building(b.below, Finish(b.top, None), STATEMENT_END);
    } else if kind == START_BLOCK {
      stack', made' := OpenBlock(stack, t, b, ss, cs, made);
    } else {
      stack' := stack[..|stack| - 1];
      if b.below.Bottom? {
        ss', cs' := SettleAll(stack, b, ss, cs, made);
        assert stack' == [] && r == Overclosed(stack[0].model);
      } else {
        ss', cs' := SettleBlock(stack, b, ss, cs, made);
        assert r == Building(b.below.below, Finish(b.below.top, Some(Config(b.top.statements))), END_BLOCK);
        assert Represents(ss', cs', stack', r);
      }
    }
  }

  /** Where a parse stops that fails: what has been read, and the state of the builder. */
  datatype Failure = Failure(read: seq<Token>, last: TokenType, state: Build)

  /** The tokens read are the first ones, they lead to this state, and the next one is illegal. */
  ghost predicate FailsAt(f: Failure, ts: seq<Token>) {
    && |f.read| < |ts| && f.read == ts[..|f.read|] && f.state == BuildAll(Begin(), f.read)
    && !LegalAfter(f.last, ts[|f.read|].kind) && ts[|f.read|].kind != COMMENT
  }

  /**
   * Parses a stream into an empty configuration.  If the parse fails, the objects hold the
   * unfinished tree of the tokens before the illegal one.  A stream that makes the program use
   * its empty stack is excluded; `OutcomeExactly` says which streams those are.
   */
  method Parse(configFile: InputStream, config: NginxConfig)
    returns (ok: bool, ghost ss: set<NginxConfigStatement>, ghost cs: set<NginxConfig>, ghost made: set<object>,
             ghost stack: seq<NginxConfig>, ghost failure: Failure)
    requires configFile.Valid() && config.statements == []
    requires !ParseText(configFile.Rest()).Undefined?
    modifies configFile, config
    ensures ok <==> ParseText(old(configFile.Rest())).Accepted?
    ensures ok ==> Finished(ss, cs) && config in cs && config.model == ParseText(old(configFile.Rest())).config
    ensures !ok ==> FailsAt(failure, Tokens(old(configFile.Rest())))
    ensures !ok ==> Parsing(ss, cs, made, stack, config, failure.last, failure.state)
  {
    hide Represents, Owns, Finished, Tokens, NextToken, BuildStep, BuildAll, Genuine, ReadSoFar, FailsAt, ParseText;
    ghost var b := Begin();
    ghost var text := configFile.Rest();
    made, ss, cs := {config}, {}, {};
    var configStack := [config];
    var last := START;
    ghost var read := [];
    ParsingBegins(config, made);
    NothingRead(text);
    failure, stack := Failure(read, last, b), configStack;
    while true
      invariant configFile.Valid() && configFile !in made && fresh(made - {config})
      invariant ss <= made && cs <= made
      invariant Parsing(ss, cs, made, configStack, config, last, b)
      invariant ReadSoFar(text, read, b, configFile.Rest())
      decreases |configFile.Rest()|
    {
      ghost var before := configFile.Rest();
      var kind, token := ParseToken(configFile);
      ghost var t := Token(kind, token);
      TokenTaken(text, read, b, before, last);
      TokenDecides(b, t, last);
      if kind == COMMENT {
        read := read + [t];
        continue;
      }
      if !LegalAfter(last, kind) {
        failure, stack := Failure(read, last, b), configStack;
        return false, ss, cs, made, stack, failure;
      }
      if kind == EOF {
        if b.Building? {
          ss, cs := SettleAll(configStack, b, ss, cs, made);
        }
        return true, ss, cs, made, stack, failure;
      }
      configStack, ss, cs, made := TakeToken(configStack, config, kind, token, last, b, ss, cs, made);
      last, b, read := kind, BuildStep(b, t), read + [t];
    }
  }

  lemma {:induction false} ParsingBegins(config: NginxConfig, made: set<object>)
    requires config.statements == [] && config in made
    ensures Parsing({}, {}, made, [config], config, START, Begin())
  {
  }

  /** The tokens `read` lead the builder to `b`, and `rest` is still in the stream. */
  ghost predicate ReadSoFar(text: string, read: seq<Token>, b: Build, rest: string) {
    b == BuildAll(Begin(), read) && Tokens(text) == read + Tokens(rest)
  }

  lemma {:induction false} NothingRead(text: string)
    ensures ReadSoFar(text, [], Begin(), text)
  {
    assert [] + Tokens(text) == Tokens(text);
  }

  /** Taking the next token takes one step of the builder; a final state decides the parse. */
  lemma {:induction false} TokenTaken(text: string, read: seq<Token>, b: Build, rest: string, last: TokenType)
    requires ReadSoFar(text, read, b, rest)
    ensures var n := NextToken(rest);
      var after := BuildStep(b, n.token);
      && (!Ends(n.token) ==> |n.rest| < |rest| && ReadSoFar(text, read + [n.token], after, n.rest))
      && (!LegalAfter(last, n.token.kind) && n.token.kind != COMMENT ==>
            FailsAt(Failure(read, last, b), Tokens(text)))
      && (Ends(n.token) || after.Rejected? || after.Undefined? || after.Accepted? ==> ParseText(text) == after)
  {
    hide BuildStep, Lex;
    var n := NextToken(rest);
    var more := if Ends(n.token) then [] else Tokens(n.rest);
    assert Tokens(rest) == [n.token] + more;
    BuildConcat(Begin(), read, [n.token]);
    BuildOne(b, n.token);
    Regroup(read, [n.token], more);
    var after := BuildAll(Begin(), read + [n.token]);
    BuildConcat(Begin(), read + [n.token], more);
    FinalOutcome(after, more);
    BuildNothing(after);
  }

  /** What the token does to the parse, in a state whose last token was of kind `last`. */
  lemma {:induction false} TokenDecides(b: Build, t: Token, last: TokenType)
    requires b.Building? || b.Overclosed?
    requires last == if b.Building? then b.last else END_BLOCK
    ensures var after := BuildStep(b, t);
      if t.kind == COMMENT then after == b
      else if !LegalAfter(last, t.kind) then after == Rejected
      else if t.kind == EOF then
        after == Accepted(if b.Building? then CloseAll(b.below, b.top) else b.root)
      else b.Overclosed? ==> after == Undefined
    ensures t.kind == EOF && LegalAfter(last, t.kind) && b.Building? ==> last != NORMAL
  {
  }

  lemma {:induction false} BuildNothing(b: Build)
    ensures BuildAll(b, []) == b
  {
  }

  lemma {:induction false} FinalOutcome(b: Build, ts: seq<Token>)
    ensures b.Rejected? || b.Undefined? || b.Accepted? ==> BuildAll(b, ts) == b
  {
    if b.Rejected? || b.Undefined? || b.Accepted? {
      FinalStays(b, ts);
    }
  }
}
