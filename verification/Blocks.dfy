/**
 * The block parsers, as functions on token lists and positions.  `Undefined` stands for a failed
 * assertion or a read past the end of the list; a block comes with the position where its parser
 * leaves the shared iterator.
 */
module Blocks {
  import opened BlockLines
  import opened Options

  /**
   * Tokens.  A code block holds one entry per line, `None` for a blank one.  `indent` of a list
   * and `at` of an item (the position of its first line in the parsed list) are not in the
   * program; they let properties of lists be stated.
   */
  datatype Tok =
    | Raw(text: string)
    | Blank(text: string)
    | Code(lines: seq<Option<string>>)
    | Header(level: nat, text: string)
    | Rule
    | Quote(level: nat, subs: seq<Tok>)
    | List(kind: ListKind, paragraphs: bool, indent: nat, subs: seq<Tok>)
    | Item(at: nat, subs: seq<Tok>)

  predicate IsContainer(t: Tok) {
    t.Quote? || t.List? || t.Item?
  }

  predicate HasText(t: Tok) {
    !IsContainer(t)
  }

  function CodeText(lines: seq<Option<string>>): string {
    if lines == [] then ""
    else CodeText(lines[..|lines| - 1])
         + (match lines[|lines| - 1] case None => "" case Some(t) => t) + "\n"
  }

  function TextOf(t: Tok): string
    requires HasText(t)
  {
    match t
    case Raw(text) => text
    case Blank(text) => text
    case Code(lines) => CodeText(lines)
    case Header(_, text) => text
    case Rule => "hr/"
  }

  predicate CanContainMarkup(t: Tok) {
    t.Raw? || t.Header?
  }

  datatype Parsed<+T> = Undefined | NoBlock | Block(value: T, next: nat)

  // ---------------------------------------------------------------------------------------
  // Code blocks
  // ---------------------------------------------------------------------------------------

  /** The line after its four spaces, if this token is a code line. */
  function CodeLine(t: Tok): (r: Option<string>) {
    if CanContainMarkup(t) then AfterSpaces(t.text, 4) else None
  }

  /** The code lines from position `i` on, with the blank lines between them. */
  function CodeRun(ts: seq<Tok>, i: nat): (r: seq<Option<string>>)
    requires i <= |ts|
    ensures i + |r| <= |ts|
    decreases |ts| - i
  {
    if i == |ts| then []
    else if ts[i].Blank? then
      var rest := CodeRun(ts, i + 1);
      if rest == [] then [] else [None] + rest
    else if CodeLine(ts[i]).Some? then [CodeLine(ts[i])] + CodeRun(ts, i + 1)
    else []
  }

  function ParseCode(ts: seq<Tok>, i: nat): Parsed<Tok>
    requires i < |ts|
  {
    if ts[i].Blank? || CodeRun(ts, i) == [] then NoBlock
    else Block(Code(CodeRun(ts, i)), i + |CodeRun(ts, i)|)
  }

  // ---------------------------------------------------------------------------------------
  // Block quotes
  // ---------------------------------------------------------------------------------------

  /** A continuation is stored as a blank line when nothing is left of it. */
  function QuoteLine(content: string): Tok {
    if IsBlankLine(content) then Blank(content) else Raw(content)
  }

  /** The quote lines from position `i` on. */
  function QuoteRun(ts: seq<Tok>, i: nat, level: nat): (r: Parsed<seq<Tok>>)
    requires i <= |ts|
    ensures !r.NoBlock? && (r.Block? ==> i <= r.next <= |ts|)
    decreases |ts| - i
  {
    if i == |ts| then Block([], i)
    else if ts[i].Blank? then
      if i + 1 == |ts| then Block([], i + 1)
      else if !HasText(ts[i + 1]) then Undefined
      else
        var m := MatchContinuation(TextOf(ts[i + 1]), level);
        if m.None? then Block([], i)
        else Prepend([Blank(""), Raw(m.value)], QuoteRun(ts, i + 2, level))
    else if !HasText(ts[i]) then Undefined
    else
      var m := MatchContinuation(TextOf(ts[i]), level);
      if m.None? then Block([], i)
      else Prepend([QuoteLine(m.value)], QuoteRun(ts, i + 1, level))
  }

  function Prepend(ts: seq<Tok>, r: Parsed<seq<Tok>>): Parsed<seq<Tok>> {
    if r.Block? then r.(value := ts + r.value) else r
  }

  function ParseQuote(ts: seq<Tok>, i: nat): Parsed<Tok>
    requires i < |ts|
  {
    if !CanContainMarkup(ts[i]) || MatchQuote(ts[i].text).None? then NoBlock
    else
      var m := MatchQuote(ts[i].text).value;
      match QuoteRun(ts, i + 1, m.level)
      case Block(subs, next) => Block(Quote(m.level, [Raw(m.content)] + subs), next)
      case _ => Undefined
  }

  // ---------------------------------------------------------------------------------------
  // Lists
  // ---------------------------------------------------------------------------------------

  /** What the list loop has collected: finished items, and the item at work. */
  datatype Items = Items(done: seq<Tok>, at: nat, current: seq<Tok>, count: nat, paragraphs: bool)

  function Add(s: Items, t: seq<Tok>): Items {
    s.(current := s.current + t)
  }

  function FinishItem(s: Items): Items {
    s.(done := if s.current == [] then s.done else s.done + [Item(s.at, s.current)], current := [])
  }

  function NextItem(s: Items, at: nat, content: string): Items {
    FinishItem(s).(at := at, current := [Raw(content)], count := s.count + 1)
  }

  /** The code block inside an item, from position `i` on: its lines and where it ends. */
  function NestedCode(ts: seq<Tok>, i: nat, depth: nat): (r: Parsed<seq<Option<string>>>)
    requires i <= |ts|
    ensures !r.NoBlock? && (r.Block? ==> i <= r.next <= |ts|)
    decreases |ts| - i
  {
    if i == |ts| then Block([], i)
    else if ts[i].Blank? then
      if i + 1 == |ts| || !HasText(ts[i + 1]) then Undefined
      else
        var m := AfterSpaces(TextOf(ts[i + 1]), depth);
        if m.None? then Block([], i)
        else match NestedCode(ts, i + 2, depth)
          case Block(lines, next) => Block([None, m] + lines, next)
          case _ => Undefined
    else if HasText(ts[i]) then
      var m := AfterSpaces(TextOf(ts[i]), depth);
      if m.None? then Block([], i)
      else match NestedCode(ts, i + 1, depth)
        case Block(lines, next) => Block([m] + lines, next)
        case _ => Undefined
    else Block([], i)
  }

  /** `^ {n}([^ ].*)$` */
  function ContinuedAfterBlank(s: string, n: nat): Option<string> {
    if LeadingSpaces(s) == n && n < |s| then Some(s[n..]) else None
  }

  /** One turn of the list loop: the list ends at `next`, or goes on there with `items`. */
  datatype Turn = Fail | Stop(next: nat) | Go(next: nat, items: Items)

  /** Collects the sub-list at position `k`. */
  function TakeSublist(ts: seq<Tok>, k: nat, s: Items, paragraphs: bool): (r: Turn)
    requires k < |ts|
    ensures !r.Stop? && (r.Go? ==> k < r.next <= |ts|)
    decreases |ts| - k, 1
  {
    match ParseList(ts, k, true)
    case Block(t, next) => Go(next, Add(s, [t]).(count := s.count + 1, paragraphs := paragraphs))
    case _ => Fail
  }

  /** The turn at a blank line that `line` follows. */
  function TurnAfterBlank(ts: seq<Tok>, i: nat, line: string, indent: nat, kind: ListKind, s: Items): (r: Turn)
    requires i + 1 < |ts|
    ensures r.Stop? ==> r.next == i
    ensures r.Go? ==> i < r.next <= |ts|
    decreases |ts| - i, 2
  {
    if StartsSublist(line, indent) then TakeSublist(ts, i + 1, s, true)
    else if MatchItem(line, indent, kind).Some? then
      Go(i + 2, NextItem(s, i + 1, MatchItem(line, indent, kind).value).(paragraphs := true))
    else if ContinuedAfterBlank(line, indent + 4).Some? then
      Go(i + 2, Add(s, [Blank(""), Raw(ContinuedAfterBlank(line, indent + 4).value)]))
    else if AfterSpaces(line, indent + 8).Some? then
      (match NestedCode(ts, i + 2, indent + 8)
       case Block(lines, next) =>
         Go(next, Add(s, [Blank(""), Code([AfterSpaces(line, indent + 8)] + lines)])
                 .(count := s.count + 1, paragraphs := true))
       case _ => Fail)
    else Stop(i)
  }

  /** The turn at a line that is not blank. */
  function TurnOnLine(ts: seq<Tok>, i: nat, line: string, indent: nat, kind: ListKind, s: Items): (r: Turn)
    requires i < |ts|
    ensures r.Stop? ==> r.next == i
    ensures r.Go? ==> i < r.next <= |ts|
    decreases |ts| - i, 2
  {
    if StartsSublist(line, indent) then TakeSublist(ts, i, s, s.paragraphs)
    else if MatchItem(line, indent, kind).Some? then Go(i + 1, NextItem(s, i, MatchItem(line, indent, kind).value))
    else if MatchList(line).Some? then Stop(i)
    else if AllSpaces(line) then Fail
    else Go(i + 1, Add(s, [Raw(line[LeadingSpaces(line)..])]))
  }

  function ListTurn(ts: seq<Tok>, i: nat, indent: nat, kind: ListKind, s: Items): (r: Turn)
    requires i < |ts|
    ensures r.Stop? ==> i <= r.next <= |ts|
    ensures r.Go? ==> i < r.next <= |ts|
    decreases |ts| - i, 3
  {
    if ts[i].Blank? then
      if i + 1 == |ts| then Stop(i + 1)
      else if !HasText(ts[i + 1]) then Stop(i)
      else TurnAfterBlank(ts, i, TextOf(ts[i + 1]), indent, kind, s)
    else if !HasText(ts[i]) then Stop(i)
    else TurnOnLine(ts, i, TextOf(ts[i]), indent, kind, s)
  }

  /** The loop of the list parser, at position `i`. */
  function ListRun(ts: seq<Tok>, i: nat, indent: nat, kind: ListKind, s: Items): (r: Parsed<Items>)
    requires i <= |ts|
    ensures !r.NoBlock? && (r.Block? ==> i <= r.next <= |ts|)
    decreases |ts| - i, 4
  {
    if i == |ts| then Block(FinishItem(s), i)
    else match ListTurn(ts, i, indent, kind, s)
      case Fail => Undefined
      case Stop(next) => Block(FinishItem(s), next)
      case Go(next, items) => ListRun(ts, next, indent, kind, items)
  }

  /** `sub` is set when the list is inside an item of another list. */
  function ParseList(ts: seq<Tok>, i: nat, sub: bool): (r: Parsed<Tok>)
    requires i < |ts|
    ensures r.Block? ==> i < r.next <= |ts|
    decreases |ts| - i, 0
  {
    if !CanContainMarkup(ts[i]) || MatchList(ts[i].text).None? then NoBlock
    else
      var m := MatchList(ts[i].text).value;
      if !sub && m.indent >= 4 then NoBlock
      else match ListRun(ts, i + 1, m.indent, m.kind, Items([], i, [Raw(m.content)], 1, false))
        case Block(s, next) =>
          if s.count > 1 || m.indent != 0 then
            Block(List(m.kind, s.paragraphs, m.indent, s.done), next)
          else NoBlock
        case _ => Undefined
  }

  // ---------------------------------------------------------------------------------------
  // Headers and rules: the iterator is left on the last line used
  // ---------------------------------------------------------------------------------------

  function ParseHeader(ts: seq<Tok>, i: nat): (r: Parsed<Tok>)
    requires i < |ts|
    ensures !r.Undefined? && (r.Block? ==> i <= r.next < |ts|)
  {
    if !CanContainMarkup(ts[i]) then NoBlock
    else if MatchHash(ts[i].text).Some? then
      var h := MatchHash(ts[i].text).value;
      Block(Header(h.level, h.text), i)
    else if i + 1 < |ts| && CanContainMarkup(ts[i + 1]) && IsUnderline(ts[i + 1].text) then
      Block(Header(if ts[i + 1].text[0] == '=' then 1 else 2, ts[i].text), i + 1)
    else NoBlock
  }

  function ParseRule(ts: seq<Tok>, i: nat): (r: Parsed<Tok>)
    requires i < |ts|
    ensures !r.Undefined? && (r.Block? ==> r.next == i)
  {
    if CanContainMarkup(ts[i]) && IsRule(ts[i].text) then Block(Rule, i) else NoBlock
  }

  // ---------------------------------------------------------------------------------------
  // The driver's choice
  // ---------------------------------------------------------------------------------------

  /** The first parser that answers, in the program's order. */
  function Recognize(ts: seq<Tok>, i: nat): (r: Parsed<Tok>)
    requires i < |ts|
    ensures r.Block? ==> i <= r.next <= |ts|
  {
    if !ParseHeader(ts, i).NoBlock? then ParseHeader(ts, i)
    else if !ParseRule(ts, i).NoBlock? then ParseRule(ts, i)
    else if !ParseList(ts, i, false).NoBlock? then ParseList(ts, i, false)
    else if !ParseQuote(ts, i).NoBlock? then ParseQuote(ts, i)
    else ParseCode(ts, i)
  }
}
