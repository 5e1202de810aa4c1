/**
 * The text of a document is kept by the driver, at every depth, unless it skips a line that says
 * something.
 */
module BlockConservation {
  import opened BlockDriver
  import opened BlockLines
  import opened BlockLists
  import opened BlockProofs
  import opened BlockText
  import opened Blocks
  import opened LineMarks
  import opened LineReader
  import opened LineText
  import Lines
  import opened Options

  /** What a token says. */
  function VoiceIn(t: Tok): seq<string> {
    VoiceOf(Spelled(t))
  }

  function VoiceAll(ts: seq<Tok>): seq<string> {
    VoiceOf(SpelledAll(ts))
  }

  lemma {:induction false} VoiceAllConcat(a: seq<Tok>, b: seq<Tok>)
    ensures VoiceAll(a + b) == VoiceAll(a) + VoiceAll(b)
  {
    SpelledConcat(a, b);
    VoiceConcat(SpelledAll(a), SpelledAll(b));
  }

  lemma {:induction false} VoiceAllShort(t: Tok)
    ensures VoiceAll([t]) == VoiceIn(t) && VoiceAll([]) == []
  {
    SpelledShort(t, t);
  }

  // ---------------------------------------------------------------------------------------
  // Tokens that the driver has not seen yet
  // ---------------------------------------------------------------------------------------

  /** A line, or lines of which the last one is ended. */
  predicate LineLike(s: string) {
    '\n' !in s || s[|s| - 1] == '\n'
  }

  /** As the reader and the block parsers leave tokens: blank lines are blank, and nothing is a header or a rule. */
  predicate Undriven(t: Tok)
    decreases t
  {
    match t
    case Raw(text) => LineLike(text)
    case Blank(text) => IsBlankLine(text) && '\n' !in text
    case Code(_) => true
    case Header(_, _) => false
    case Rule => false
    case Quote(_, subs) => forall k :: 0 <= k < |subs| ==> Undriven(subs[k])
    case List(_, _, _, subs) => forall k :: 0 <= k < |subs| ==> Undriven(subs[k])
    case Item(_, subs) => forall k :: 0 <= k < |subs| ==> Undriven(subs[k])
  }

  predicate AllUndriven(ts: seq<Tok>) {
    forall k :: 0 <= k < |ts| ==> Undriven(ts[k])
  }

  lemma {:induction false} CodeTextEnds(lines: seq<Option<string>>)
    ensures LineLike(CodeText(lines))
  {
  }

  lemma {:induction false} TextIsLineLike(t: Tok)
    requires Undriven(t) && HasText(t)
    ensures LineLike(TextOf(t))
  {
    if t.Code? {
      CodeTextEnds(t.lines);
    }
  }

  lemma {:induction false} RestIsLineLike(t: string, s: string)
    requires LessMarks(t, s) && LineLike(s)
    ensures LineLike(t)
  {
    hide LessMarks;
    LessIsSuffix(t, s);
    if '\n' in t {
      assert '\n' in s && s[|s| - 1] == t[|t| - 1];
    }
  }

  lemma {:induction false} BlankEnds(s: string)
    requires IsBlankLine(s) && s != ""
    ensures s[|s| - 1] == ' ' || s[|s| - 1] == '>'
  {
    var n := LeadingSpaces(s);
    if n < |s| {
      var rest := s[n + 3..];
      var body := DropTrailing(rest, ' ');
      LastOf(body);
      assert rest != "" && s[|s| - 1] == rest[|rest| - 1];
      assert |body| == |rest| ==> rest == body;
    }
  }

  lemma {:induction false} BlankHasNoFeed(s: string)
    requires LineLike(s) && IsBlankLine(s)
    ensures '\n' !in s
  {
    hide IsBlankLine;
    if s != "" {
      BlankEnds(s);
    }
  }

  /** What is spelled of such lines is such a line. */
  lemma {:induction false} SpelledIsLineLike(f: Front, ts: seq<Tok>, i: nat, j: nat, out: seq<string>)
    requires i <= j <= |ts| && AllUndriven(ts) && Spells(f, ts, i, j, out)
    ensures forall k :: 0 <= k < |out| ==> LineLike(out[k])
    decreases j - i
  {
    hide LineLike, TakesOff, TextOf;
    if i < j {
      if ts[i].Blank? && Spells(f, ts, i + 1, j, out) {
        SpelledIsLineLike(f, ts, i + 1, j, out);
      } else {
        SpelledIsLineLike(f, ts, i + 1, j, out[1..]);
        OneIsLineLike(f, out[0], ts[i]);
        assert forall k :: 0 < k < |out| ==> out[k] == out[1..][k - 1];
      }
    }
  }

  lemma {:induction false} OneIsLineLike(f: Front, line: string, t: Tok)
    requires Undriven(t) && HasText(t) && IsRest(f, line, t)
    ensures LineLike(line)
  {
    hide LineLike, TakesOff, LessMarks;
    NothingIsLineLike();
    TextIsLineLike(t);
    if TakesOff(f, line, TextOf(t)) {
      TakenIsMarks(f, line, TextOf(t));
      RestIsLineLike(line, TextOf(t));
    }
  }

  lemma {:induction false} NothingIsLineLike()
    ensures LineLike("")
  {
  }

  /** A list in shape that spells such lines is as the parsers leave it. */
  lemma {:induction false} NestedIsUndriven(ts: seq<Tok>, t: Tok, outer: int)
    requires WellNested(ts, t, outer) && forall x :: x in Spelled(t) ==> LineLike(x)
    ensures Undriven(t)
    decreases t
  {
    hide LineLike;
    match t
    case List(_, _, indent, items) =>
      forall k | 0 <= k < |items| ensures Undriven(items[k]) {
        PartsAreSpelled(items, k);
        ItemIsUndriven(ts, items[k], indent);
      }
    case Raw(text) => assert text in Spelled(t);
    case Blank(text) => assert LeadingSpaces("") == 0;
    case _ =>
  }

  lemma {:induction false} ItemIsUndriven(ts: seq<Tok>, t: Tok, indent: int)
    requires t.Item? && AllWellNested(ts, t.subs, indent) && forall x :: x in Spelled(t) ==> LineLike(x)
    ensures Undriven(t)
    decreases t
  {
    hide LineLike, WellNested;
    forall j | 0 <= j < |t.subs| ensures Undriven(t.subs[j]) {
      PartsAreSpelled(t.subs, j);
      NestedIsUndriven(ts, t.subs[j], indent);
    }
  }

  lemma {:induction false} QuoteRunUndriven(ts: seq<Tok>, i: nat, level: nat)
    requires i <= |ts| && AllUndriven(ts)
    ensures var r := QuoteRun(ts, i, level); r.Block? ==> AllUndriven(r.value)
    decreases |ts| - i
  {
    hide LineLike, MatchContinuation, TextOf, IsBlankLine, TakesOff, LessMarks;
    if i < |ts| {
      var n := if ts[i].Blank? then i + 1 else i;
      if n < |ts| && HasText(ts[n]) && MatchContinuation(TextOf(ts[n]), level).Some? {
        var content := MatchContinuation(TextOf(ts[n]), level).value;
        QuoteRunUndriven(ts, n + 1, level);
        TextIsLineLike(ts[n]);
        ContinuationIsOff(ts[n], level);
        TakenIsMarks(QuoteMarks(level), content, TextOf(ts[n]));
        RestIsLineLike(content, TextOf(ts[n]));
        if IsBlankLine(content) {
          BlankHasNoFeed(content);
        }
        EmptyIsBlank();
      }
    }
  }

  lemma {:induction false} EmptyIsBlank()
    ensures IsBlankLine("")
  {
  }

  /** What a parser makes of such tokens is such a token. */
  lemma {:induction false} BlockIsUndriven(ts: seq<Tok>, i: nat)
    requires i < |ts| && AllUndriven(ts) && Defined(ts, i)
    ensures var b := SpanAt(ts, i).block; IsContainer(b) ==> Undriven(b)
  {
    hide ListRun, QuoteRun, CodeRun, MatchList, MatchQuote, MatchHash, Spelled, Spells, LineLike, WellNested;
    if CanContainMarkup(ts[i]) {
      ListIsUndriven(ts, i);
      QuoteIsUndriven(ts, i);
    }
  }

  lemma {:induction false} ListIsUndriven(ts: seq<Tok>, i: nat)
    requires i < |ts| && AllUndriven(ts)
    ensures var p := ParseList(ts, i, false); p.Block? ==> Undriven(p.value)
  {
    hide ListRun, Spelled, Spells, LineLike, WellNested;
    var p := ParseList(ts, i, false);
    if p.Block? {
      ListSpells(ts, i, false);
      SpelledIsLineLike(ItemMarker, ts, i, p.next, Spelled(p.value));
      ListIsNested(ts, i, false, -1);
      NestedIsUndriven(ts, p.value, -1);
    }
  }

  lemma {:induction false} QuoteIsUndriven(ts: seq<Tok>, i: nat)
    requires i < |ts| && AllUndriven(ts)
    ensures var p := ParseQuote(ts, i); p.Block? ==> Undriven(p.value)
  {
    hide LineLike, LessMarks, QuoteRun, MatchQuote, QuoteOff;
    var p := ParseQuote(ts, i);
    if p.Block? {
      var m := MatchQuote(ts[i].text).value;
      QuoteTakesMarks(ts[i].text);
      TakenIsMarks(QuoteMarks(m.level), m.content, ts[i].text);
      RestIsLineLike(m.content, ts[i].text);
      QuoteRunUndriven(ts, i + 1, m.level);
    }
  }

  // ---------------------------------------------------------------------------------------
  // One level: a block says what its lines say
  // ---------------------------------------------------------------------------------------

  lemma {:induction false} CodeSays(lines: seq<Option<string>>)
    ensures Voice(CodeText(lines)) == VoiceOf(LinesOf(lines))
  {
    hide Voice;
    if lines == [] {
      VoiceShort("");
    } else {
      var front, last := lines[..|lines| - 1], lines[|lines| - 1];
      var line := if last.Some? then last.value else "";
      CodeSays(front);
      assert lines == front + [last];
      LinesConcat(front, [last]);
      assert [last][1..] == [] && LinesOf([last]) == [line];
      VoiceConcat(LinesOf(front), [line]);
      VoiceShort(line);
      CodeTextSays(CodeText(front), line);
    }
  }

  /** A line that is added to lines that are all ended. */
  lemma {:induction false} CodeTextSays(before: string, line: string)
    requires before == "" || before[|before| - 1] == '\n'
    ensures Voice(before + line + "\n") == Voice(before) + Voice(line)
  {
    hide Voice;
    VoiceShort("");
    VoiceJoins(before + line, "");
    assert before + line + "\n" == before + line + "\n" + "";
    if before == "" {
      assert before + line == line;
    } else {
      var b := before[..|before| - 1];
      assert before == b + "\n" && before + line == b + "\n" + line && before == b + "\n" + "";
      VoiceJoins(b, line);
      VoiceJoins(b, "");
    }
  }

  /** The text of a token says what the token says. */
  lemma {:induction false} TextSays(t: Tok)
    requires Undriven(t) && HasText(t)
    ensures Voice(TextOf(t)) == VoiceIn(t)
    ensures t.Blank? ==> VoiceIn(t) == []
  {
    hide Voice;
    match t
    case Code(lines) => CodeSays(lines);
    case Blank(text) =>
      VoiceShort(text);
      BlankSaysNothing(text);
    case Raw(text) => VoiceShort(text);
  }

  lemma {:induction false} RestSays(f: Front, line: string, t: Tok)
    requires Undriven(t) && HasText(t) && IsRest(f, line, t)
    ensures Voice(line) == VoiceIn(t)
  {
    hide Voice, LessMarks, TakesOff;
    TextSays(t);
    VoiceShort("");
    if TakesOff(f, line, TextOf(t)) {
      TakenIsMarks(f, line, TextOf(t));
      FrontSaysNothing(line, TextOf(t));
    }
  }

  /** What spells the tokens from `i` to `j` says what they say. */
  lemma {:induction false} SpellingSays(f: Front, ts: seq<Tok>, i: nat, j: nat, out: seq<string>)
    requires i <= j <= |ts| && AllUndriven(ts) && Spells(f, ts, i, j, out)
    ensures VoiceOf(out) == VoiceAll(ts[i..j])
    decreases j - i
  {
    hide Voice, IsRest, Undriven, VoiceIn, VoiceAll;
    if i == j {
      assert ts[i..j] == [];
      VoiceAllShort(Rule);
    } else {
      assert ts[i..j] == [ts[i]] + ts[i + 1..j];
      VoiceAllConcat([ts[i]], ts[i + 1..j]);
      VoiceAllShort(ts[i]);
      TextSays(ts[i]);
      if ts[i].Blank? && Spells(f, ts, i + 1, j, out) {
        SpellingSays(f, ts, i + 1, j, out);
      } else {
        SpellingSays(f, ts, i + 1, j, out[1..]);
        RestSays(f, out[0], ts[i]);
      }
    }
  }

  /** What a block takes off the front of its lines. */
  function FrontOf(block: Tok): Front {
    match block
    case Quote(level, _) => QuoteMarks(level)
    case List(_, _, _, _) => ItemMarker
    case _ => Indent
  }

  /** The lines of a code block, a quote or a list are spelled by it; so is a line that is kept. */
  lemma {:induction false} BlockSpells(ts: seq<Tok>, i: nat)
    requires i < |ts| && CanContainMarkup(ts[i]) && Defined(ts, i) && !LeavesOnLastLine(SpanAt(ts, i).block)
    ensures var s := SpanAt(ts, i); Spells(FrontOf(s.block), ts, s.from, s.to, Spelled(s.block))
  {
    hide Spells, Spelled, ParseList, ParseQuote, ParseCode, ParseHeader, ParseRule, ListRun, MatchList;
    HeadersAndRules(ts, i);
    ListSpells(ts, i, false);
    if ParseList(ts, i, false).Block? {
      ListAnswer(ts, i, false);
    }
    QuoteSpells(ts, i);
    CodeBlockSpells(ts, i);
    LineSpells(ts, i);
  }

  lemma {:induction false} HeadersAndRules(ts: seq<Tok>, i: nat)
    requires i < |ts|
    ensures ParseHeader(ts, i).Block? ==> ParseHeader(ts, i).value.Header?
    ensures ParseRule(ts, i).Block? ==> ParseRule(ts, i).value == Rule
  {
  }

  lemma {:induction false} CodeBlockSpells(ts: seq<Tok>, i: nat)
    requires i < |ts|
    ensures var p := ParseCode(ts, i);
      p.Block? ==> p.value.Code? && i <= p.next <= |ts| && Spells(Indent, ts, i, p.next, Spelled(p.value))
  {
    hide Spells, CodeRun;
    CodeSpells(ts, i);
  }

  lemma {:induction false} LineSpells(ts: seq<Tok>, i: nat)
    requires i < |ts| && CanContainMarkup(ts[i])
    ensures Spells(Indent, ts, i, i + 1, Spelled(ts[i]))
  {
    hide Spells, SpacesOff;
    SpacesAreOff(ts[i].text, 0);
    assert ts[i].text[0..] == ts[i].text;
    SpellsOne(Indent, ts, i, ts[i].text);
  }

  /** So does a header what its line says; the line under it, or a rule, says nothing. */
  lemma {:induction false} HeaderSays(ts: seq<Tok>, i: nat)
    requires i < |ts| && AllUndriven(ts) && ParseHeader(ts, i).Block?
    ensures var p := ParseHeader(ts, i); p.value.Header? && VoiceIn(p.value) == VoiceAll(ts[i..p.next + 1])
  {
    hide Voice, IsUnderline, MatchHash, VoiceAll, BetweenEndMarks;
    var p := ParseHeader(ts, i);
    TextSays(ts[i]);
    VoiceShort(p.value.text);
    VoiceAllShort(ts[i]);
    if MatchHash(ts[i].text).Some? {
      HeadingSays(ts[i].text);
      assert ts[i..i + 1] == [ts[i]];
    } else {
      UnderlineSaysNothing(ts[i + 1].text);
      TextSays(ts[i + 1]);
      VoiceAllShort(ts[i + 1]);
      VoiceAllConcat([ts[i]], [ts[i + 1]]);
      assert ts[i..i + 2] == [ts[i]] + [ts[i + 1]];
      assert VoiceIn(ts[i]) + [] == VoiceIn(ts[i]);
    }
  }

  lemma {:induction false} RuleSays(ts: seq<Tok>, i: nat)
    requires i < |ts| && AllUndriven(ts) && ParseRule(ts, i).Block?
    ensures ParseRule(ts, i).value == Rule && VoiceIn(Rule) == VoiceAll(ts[i..i + 1])
  {
    hide Voice, IsRule;
    TextSays(ts[i]);
    VoiceAllShort(ts[i]);
    RuleSaysNothing(ts[i].text);
    assert ts[i..i + 1] == [ts[i]];
  }

  /** Before the blocks inside it are made, a block says what the lines it covers say. */
  lemma {:induction false} BlockSays(ts: seq<Tok>, i: nat)
    requires i < |ts| && AllUndriven(ts) && Defined(ts, i)
    ensures var s := SpanAt(ts, i); VoiceIn(s.block) == VoiceAll(ts[s.from..s.to])
  {
    hide Voice, Spells, Spelled, SpelledAll, ParseList, ParseQuote, ParseCode, ParseHeader, ParseRule, VoiceIn,
         VoiceAll;
    var s := SpanAt(ts, i);
    if !CanContainMarkup(ts[i]) {
      NoLineIsKept(ts, i);
      assert ts[i..i + 1] == [ts[i]];
      VoiceAllShort(ts[i]);
    } else if ParseHeader(ts, i).Block? {
      HeaderSays(ts, i);
    } else if ParseRule(ts, i).Block? {
      RuleSays(ts, i);
    } else {
      NoHeader(ts, i);
      BlockSpells(ts, i);
      SpellingSays(FrontOf(s.block), ts, s.from, s.to, Spelled(s.block));
      VoiceIsOf(s.block);
    }
  }

  lemma {:induction false} NoLineIsKept(ts: seq<Tok>, i: nat)
    requires i < |ts| && Defined(ts, i) && !CanContainMarkup(ts[i])
    ensures SpanAt(ts, i) == Span(i, i + 1, ts[i], false)
  {
    hide ListRun, QuoteRun;
  }

  lemma {:induction false} VoiceIsOf(t: Tok)
    ensures VoiceIn(t) == VoiceOf(Spelled(t))
  {
  }

  lemma {:induction false} NoHeader(ts: seq<Tok>, i: nat)
    requires i < |ts| && Defined(ts, i) && ts[i].Raw? && !ParseHeader(ts, i).Block? && !ParseRule(ts, i).Block?
    ensures !LeavesOnLastLine(SpanAt(ts, i).block)
  {
    hide ListRun, QuoteRun, CodeRun, ParseHeader, ParseRule;
  }

  // ---------------------------------------------------------------------------------------
  // All levels
  // ---------------------------------------------------------------------------------------

  /** The line behind the block at `i`, if it breaks the block off, says something. */
  predicate LosesText(ts: seq<Tok>, i: nat)
    requires i < |ts| && Defined(ts, i)
  {
    var s := SpanAt(ts, i);
    CanContainMarkup(ts[i]) && s.to < |ts| && Interrupts(s.block, ts[s.to]) && VoiceIn(ts[s.to]) != []
  }

  /** No block from `i` on, nor any block inside one, is broken off by a line that says something. */
  predicate KeepsText(ts: seq<Tok>, i: nat)
    requires i <= |ts| && DriveFrom(ts, i).Some?
    decreases CharsOf(ts), SizeOf(ts), |ts| - i
  {
    if i == |ts| then true
    else
      DriveStep(ts, i);
      var s := SpanAt(ts, i);
      && !LosesText(ts, i)
      && (if IsContainer(s.block) then InsideMeasure(ts, i); KeepsText(s.block.subs, 0) else true)
      && KeepsText(ts, GoesOn(s))
  }

  /** What is skipped behind a block says something exactly if the block loses text. */
  lemma {:induction false} SkippedSays(ts: seq<Tok>, i: nat)
    requires i < |ts| && AllUndriven(ts) && Defined(ts, i)
    ensures var s := SpanAt(ts, i); VoiceAll(ts[s.to..GoesOn(s)]) != [] <==> LosesText(ts, i)
  {
    hide SpanAt, Interrupts, VoiceIn, VoiceAll, Undriven, CanContainMarkup;
    var s := SpanAt(ts, i);
    if s.skips {
      assert ts[s.to..s.to + 1] == [ts[s.to]];
      VoiceAllShort(ts[s.to]);
      OnlyLinesSkip(ts, i);
      if ts[s.to].Blank? {
        TextSays(ts[s.to]);
      } else {
        SkippedInterrupts(ts, i);
      }
    } else {
      assert ts[s.to..s.to] == [];
      if LosesText(ts, i) {
        InterruptingIsSkipped(ts, i);
      }
      VoiceAllShort(ts[i]);
    }
  }

  lemma {:induction false} ContainerSays(t: Tok)
    requires IsContainer(t)
    ensures VoiceIn(t) == VoiceAll(t.subs)
  {
  }

  lemma {:induction false} InsideUndriven(t: Tok)
    requires IsContainer(t) && Undriven(t)
    ensures AllUndriven(t.subs)
  {
  }

  /** One span of the driver: the token that goes out, what it was made of, and the rest. */
  lemma {:induction false} SpanSays(ts: seq<Tok>, i: nat)
    requires i < |ts| && AllUndriven(ts) && DriveFrom(ts, i).Some?
    ensures Defined(ts, i)
    ensures var s := SpanAt(ts, i);
      && GoesOn(s) <= |ts| && Processed(s.block).Some? && DriveFrom(ts, GoesOn(s)).Some?
      && VoiceAll(DriveFrom(ts, i).value) ==
           VoiceIn(Processed(s.block).value) + VoiceAll(DriveFrom(ts, GoesOn(s)).value)
      && VoiceAll(ts[i..]) == VoiceIn(s.block) + VoiceAll(ts[s.to..GoesOn(s)]) + VoiceAll(ts[GoesOn(s)..])
  {
    hide SpanAt, VoiceAll, VoiceIn, Processed, DriveFrom, Undriven;
    DriveStep(ts, i);
    var s := SpanAt(ts, i);
    var g := GoesOn(s);
    BlockSays(ts, i);
    VoiceAllConcat(ts[i..s.to], ts[s.to..g]);
    VoiceAllConcat(ts[i..s.to] + ts[s.to..g], ts[g..]);
    assert ts[i..] == ts[i..s.to] + ts[s.to..g] + ts[g..];
    VoiceAllConcat([Processed(s.block).value], DriveFrom(ts, g).value);
    VoiceAllShort(Processed(s.block).value);
  }

  /**
   * The driver's output says what its input says, in order, each line once, if and only if no
   * block, at any depth, is broken off by a line that says something; else it says less.
   */
  lemma {:induction false} DriverKeepsText(ts: seq<Tok>, i: nat)
    requires i <= |ts| && AllUndriven(ts) && DriveFrom(ts, i).Some?
    ensures var out := DriveFrom(ts, i).value;
      if KeepsText(ts, i) then VoiceAll(out) == VoiceAll(ts[i..]) else |VoiceAll(out)| < |VoiceAll(ts[i..])|
    decreases CharsOf(ts), SizeOf(ts), |ts| - i
  {
    hide SpanAt, VoiceAll, VoiceIn, DriveFrom, Undriven, LosesText, CharsOf, SizeOf;
    if i == |ts| {
      NothingDriven(ts);
    } else {
      SpanSays(ts, i);
      SkippedSays(ts, i);
      var s := SpanAt(ts, i);
      DriveStep(ts, i);
      DriverKeepsText(ts, GoesOn(s));
      if IsContainer(s.block) {
        InsideMeasure(ts, i);
        BlockIsUndriven(ts, i);
        InsideUndriven(s.block);
        DriverKeepsText(s.block.subs, 0);
        BlockKeepsText(s.block);
      }
    }
  }

  lemma {:induction false} NothingDriven(ts: seq<Tok>)
    ensures DriveFrom(ts, |ts|) == Some([]) && ts[|ts|..] == []
  {
  }

  lemma {:induction false} BlockKeepsText(t: Tok)
    requires IsContainer(t) && Processed(t).Some?
    ensures DriveFrom(t.subs, 0).Some? && t.subs[0..] == t.subs
    ensures VoiceIn(t) == VoiceAll(t.subs) && VoiceIn(Processed(t).value) == VoiceAll(DriveFrom(t.subs, 0).value)
  {
    hide VoiceAll, DriveFrom;
    ContainerSays(t);
    ContainerSays(Processed(t).value);
  }

  // ---------------------------------------------------------------------------------------
  // From the source to the blocks
  // ---------------------------------------------------------------------------------------

  lemma {:induction false} LinesSay(lines: seq<string>)
    requires forall k :: 0 <= k < |lines| ==> Lines.Clean(lines[k])
    ensures AllUndriven(LineTokens(lines)) && VoiceAll(LineTokens(lines)) == VoiceOf(lines)
  {
    hide Voice, IsBlankLine;
    var ts := LineTokens(lines);
    forall k | 0 <= k < |ts| ensures Undriven(ts[k]) {
      assert ts[k] == LineToken(lines[k]);
    }
    if lines == [] {
      VoiceAllShort(Rule);
    } else {
      assert ts[1..] == LineTokens(lines[1..]);
      LinesSay(lines[1..]);
      assert Spelled(ts[0]) == [lines[0]];
      VoiceConcat([lines[0]], SpelledAll(ts[1..]));
      VoiceShort(lines[0]);
    }
  }

  /** An HTML tag or a comment starts the line, or what may be taken for a line of its own. */
  predicate StartsHtml(line: string) {
    exists k :: 0 <= k < |line| - 1 && line[k] == '<' && (k == 0 || line[k - 1] == '\U{000C}')
                && (line[k + 1] == '/' || line[k + 1] == '!' || IsDigit(line[k + 1])
                    || 'a' <= line[k + 1] <= 'z' || 'A' <= line[k + 1] <= 'Z')
  }

  /** A bracket starts the line, and further on it has what ends the name of a reference. */
  predicate StartsReference(line: string) {
    var n := LeadingSpaces(line);
    && n <= 3 && n < |line| && line[n] == '['
    && exists k :: n < k < |line| - 2 && line[k] == ']' && line[k + 1] == ':' && line[k + 2] == ' '
  }

  /** The passes before the driver take HTML and link references out; other lines they leave alone. */
  predicate LeftAlone(line: string) {
    !StartsHtml(line) && !StartsReference(line)
  }

  /**
   * From the source to the blocks, where nothing is taken out before: if the driver ends, its
   * blocks say what the lines of the source say, in order, each line once, if and only if no
   * block, at any depth, is broken off by a line that says something.
   */
  lemma {:induction false} DocumentKeepsTextExactly(source: string, width: nat)
    requires forall line :: line in Lines.AllLines(source, width) ==> LeftAlone(line)
    requires DriveFrom(LineTokens(Lines.AllLines(source, width)), 0).Some?
    ensures var lines := Lines.AllLines(source, width);
      var ts := LineTokens(lines);
      VoiceAll(DriveFrom(ts, 0).value) == VoiceOf(lines) <==> KeepsText(ts, 0)
  {
    hide VoiceAll, VoiceOf, AllUndriven, KeepsText, DriveFrom, LineTokens, LeftAlone;
    var lines := Lines.AllLines(source, width);
    var ts := LineTokens(lines);
    Lines.LinesAreClean(source, width);
    LinesSay(lines);
    DriverKeepsText(ts, 0);
    assert ts[0..] == ts;
  }
}
