/**
 * The configuration language: its printed form, its tokens, and the tree a token stream builds.
 */
module ConfigSpec {
  import opened Options

  datatype Config = Config(statements: seq<Statement>)
  datatype Statement = Statement(tokens: seq<string>, child: Option<Config>)

  // ---------------------------------------------------------------------------------------
  // Printing
  // ---------------------------------------------------------------------------------------

  function Indent(depth: nat): string {
    if depth == 0 then "" else Indent(depth - 1) + "  "
  }

  function JoinTokens(ts: seq<string>): string {
    if ts == [] then ""
    else if |ts| == 1 then ts[0]
    else JoinTokens(ts[..|ts| - 1]) + " " + ts[|ts| - 1]
  }

  function StatementText(s: Statement, depth: nat): string
    decreases s, 0
  {
    Indent(depth) + JoinTokens(s.tokens)
    + (if s.child.Some? then " {\n" + ConfigText(s.child.value, depth + 1) + Indent(depth) + "}" else ";")
    + "\n"
  }

  function ConfigText(c: Config, depth: nat): string
    decreases c, 0
  {
    StatementsText(c.statements, depth)
  }

  function StatementsText(ss: seq<Statement>, depth: nat): string
    decreases ss, 0
  {
    if ss == [] then "" else StatementText(ss[0], depth) + StatementsText(ss[1..], depth)
  }

  // ---------------------------------------------------------------------------------------
  // The tokenizer
  // ---------------------------------------------------------------------------------------

  datatype TokenType = START | NORMAL | START_BLOCK | END_BLOCK | COMMENT | STATEMENT_END | EOF | ERROR

  datatype LexState = INITIAL_WHITESPACE | SINGLE_QUOTE | DOUBLE_QUOTE | IN_COMMENT | IN_NORMAL

  datatype Token = Token(kind: TokenType, value: string)

  datatype Lexed = Lexed(token: Token, rest: string)

  function QuoteOf(state: LexState): char {
    if state == SINGLE_QUOTE then '\'' else '\"'
  }

  predicate IsQuoted(state: LexState) {
    state == SINGLE_QUOTE || state == DOUBLE_QUOTE
  }

  /** What may follow the closing quote of a quoted token. */
  predicate EndsQuoted(c: char) {
    c == ' ' || c == '\t' || c == '\n' || c == ';'
  }

  predicate EndsNormal(c: char) {
    c == ' ' || c == '\t' || c == '\n' || c == ';' || c == '{' || c == '}'
  }

  predicate IsBlank(c: char) {
    c == ' ' || c == '\t' || c == '\n' || c == '\r'
  }

  /** Reads on in `state`, with `value` collected so far and `s` still in the stream. */
  function Lex(state: LexState, value: string, s: string): (r: Lexed)
    requires IsQuoted(state) ==> value != ""
    ensures |r.rest| <= |s|
    ensures state == INITIAL_WHITESPACE && r.token.kind != EOF && r.token.kind != ERROR ==> |r.rest| < |s|
    decreases |s|
  {
    if s == "" then
      Lexed(Token(if IsQuoted(state) then ERROR else EOF, value), "")
    else
      var c, rest := s[0], s[1..];
      match state
      case INITIAL_WHITESPACE =>
        if c == '{' then Lexed(Token(START_BLOCK, [c]), rest)
        else if c == '}' then Lexed(Token(END_BLOCK, [c]), rest)
        else if c == '#' then Lex(IN_COMMENT, [c], rest)
        else if c == '\"' then Lex(DOUBLE_QUOTE, [c], rest)
        else if c == '\'' then Lex(SINGLE_QUOTE, [c], rest)
        else if c == ';' then Lexed(Token(STATEMENT_END, [c]), rest)
        else if IsBlank(c) then Lex(INITIAL_WHITESPACE, value, rest)
        else Lex(IN_NORMAL, value + [c], rest)
      case IN_COMMENT =>
        if c == '\n' || c == '\r' then Lexed(Token(COMMENT, value), rest)
        else Lex(IN_COMMENT, value + [c], rest)
      case IN_NORMAL =>
        if EndsNormal(c) then Lexed(Token(NORMAL, value), s)
        else Lex(IN_NORMAL, value + [c], rest)
      case _ =>
        if c == QuoteOf(state) then
          if rest != "" && EndsQuoted(rest[0]) then Lexed(Token(NORMAL, value + [c]), rest)
          else if value[|value| - 1] == '\\' then Lex(state, value[..|value| - 1] + [c], rest)
          else Lexed(Token(ERROR, value + [c]), rest)
        else if c == '\\' && rest != "" && rest[0] == '\\' then Lex(state, value, rest)
        else Lex(state, value + [c], rest)
  }

  function NextToken(s: string): Lexed {
    Lex(INITIAL_WHITESPACE, "", s)
  }

  /** All tokens of a stream, up to and including the first end of file or error. */
  function Tokens(s: string): (r: seq<Token>)
    ensures r != [] && (r[|r| - 1].kind == EOF || r[|r| - 1].kind == ERROR)
    decreases |s|
  {
    var n := NextToken(s);
    if n.token.kind == EOF || n.token.kind == ERROR then [n.token] else [n.token] + Tokens(n.rest)
  }

  // ---------------------------------------------------------------------------------------
  // The tree builder
  // ---------------------------------------------------------------------------------------

  /** One level of the stack: its finished statements and the tokens of an unfinished one. */
  datatype Frame = Frame(statements: seq<Statement>, pending: Option<seq<string>>)

  datatype Stack = Bottom | Push(below: Stack, top: Frame)

  /**
   * `Building` has the top frame and what lies below it.  `Overclosed` is the state after a
   * closing brace has popped the root; `Undefined` is the use of the empty stack that may follow.
   */
  datatype Build =
    | Building(below: Stack, top: Frame, last: TokenType)
    | Overclosed(root: Config)
    | Rejected
    | Undefined
    | Accepted(config: Config)

  function Begin(): Build {
    Building(Bottom, Frame([], None), START)
  }

  function PendingTokens(f: Frame): seq<string> {
    if f.pending.Some? then f.pending.value else []
  }

  /** Finishes the pending statement of a frame with the given child. */
  function Finish(f: Frame, child: Option<Config>): Frame {
    Frame(f.statements + [Statement(PendingTokens(f), child)], None)
  }

  /** The tree of a stack whose blocks all end here. */
  function CloseAll(below: Stack, top: Frame): Config {
    match below
    case Bottom => Config(top.statements)
    case Push(rest, parent) => CloseAll(rest, Finish(parent, Some(Config(top.statements))))
  }

  function BuildStep(b: Build, t: Token): Build {
    if t.kind == COMMENT then b
    else match b
      case Overclosed(root) =>
        (match t.kind
         case NORMAL => Undefined
         case END_BLOCK => Undefined
         case EOF => Accepted(root)
         case _ => Rejected)
      case Building(below, top, last) =>
        (match t.kind
         case NORMAL =>
           if last == NORMAL then
             Building(below, top.(pending := Some(PendingTokens(top) + [t.value])), NORMAL)
           else if last == START || last == STATEMENT_END || last == START_BLOCK || last == END_BLOCK then
             Building(below, top.(pending := Some([t.value])), NORMAL)
           else Rejected
         case STATEMENT_END =>
           if last == NORMAL then Building(below, Finish(top, None), STATEMENT_END) else Rejected
         case START_BLOCK =>
           if last == NORMAL then Building(Push(below, top), Frame([], None), START_BLOCK) else Rejected
         case END_BLOCK =>
           if last != STATEMENT_END && last != START_BLOCK && last != END_BLOCK then Rejected
           else if below.Bottom? then Overclosed(Config(top.statements))
           else Building(below.below, Finish(below.top, Some(Config(top.statements))), END_BLOCK)
         case EOF =>
           if last == STATEMENT_END || last == END_BLOCK then Accepted(CloseAll(below, top)) else Rejected
         case _ => Rejected)
      case _ => b
  }

  function BuildAll(b: Build, ts: seq<Token>): Build
    decreases ts
  {
    if ts == [] then b else BuildAll(BuildStep(b, ts[0]), ts[1..])
  }

  /** What parsing a text comes to. */
  function ParseText(s: string): Build {
    BuildAll(Begin(), Tokens(s))
  }
}
