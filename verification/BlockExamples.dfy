/** Small documents on which the block parsers lose a line, or fail. */
module BlockExamples {
  import opened BlockConservation
  import opened BlockDriver
  import opened BlockLines
  import opened Blocks
  import opened LineText
  import opened ListTrouble
  import opened Options

  // ---------------------------------------------------------------------------------------
  // Lost lines
  // ---------------------------------------------------------------------------------------

  /** A line indented by four spaces, and a line that is not: the first is a code block by itself. */
  lemma {:induction false} CodeThenText(ts: seq<Tok>)
    requires |ts| == 2 && ts[0] == Raw("    c") && ts[1].Raw? && LeadingSpaces(ts[1].text) == 0
    requires !IsUnderline(ts[1].text)
    ensures Recognize(ts, 0) == Block(Code([Some("c")]), 1)
  {
    hide IsUnderline, CodeRun, MatchItem, IsRule;
    CodeRunOfOne(ts);
    DeepLetter("    c");
  }

  lemma {:induction false} DeepLetter(s: string)
    requires s == "    c"
    ensures MatchHash(s).None? && !IsRule(s) && MatchList(s).None? && MatchQuote(s).None?
  {
    LeadingIs(s, 4);
    assert s[4] == 'c' && s[4..][0] == 'c' && HashRun(s) == 0 && DigitRun(s[4..]) == 0;
  }

  lemma {:induction false} CodeRunOfOne(ts: seq<Tok>)
    requires |ts| == 2 && ts[0] == Raw("    c") && ts[1].Raw? && LeadingSpaces(ts[1].text) == 0
    ensures CodeRun(ts, 0) == [Some("c")]
  {
    hide LeadingSpaces;
    LeadingIs("    c", 4);
    assert Drop("    c", 4) == "c" && CodeLine(ts[1]) == None;
    assert CodeRun(ts, 1) == [];
  }

  /** A code block directly followed by text: the text is lost. */
  lemma {:induction false} TextAfterCodeIsLost(text: string)
    requires LeadingSpaces(text) == 0 && !IsUnderline(text)
    ensures DriveFrom([Raw("    c"), Raw(text)], 0) == Some([Code([Some("c")])])
    ensures KeepsText([Raw("    c"), Raw(text)], 0) <==> Voice(text) == []
  {
    hide Recognize, LeadingSpaces, IsUnderline, Voice;
    var ts := [Raw("    c"), Raw(text)];
    CodeThenText(ts);
    assert DriveFrom(ts, 2) == Some([]);
    assert [Code([Some("c")])] + [] == [Code([Some("c")])];
    assert CodeLine(ts[1]) == None && LosesText(ts, 0) <==> VoiceIn(ts[1]) != [];
    VoiceShort(text);
    assert KeepsText(ts, 2);
  }

  /** So is a number. */
  lemma {:induction false} NumberAfterCodeIsLost()
    ensures DriveFrom([Raw("    c"), Raw("2009-05-01")], 0) == Some([Code([Some("c")])])
    ensures !KeepsText([Raw("    c"), Raw("2009-05-01")], 0)
  {
    hide Voice, KeepsText, DriveFrom;
    NumbersAreSaid();
    TextAfterCodeIsLost("2009-05-01");
  }

  /** A word by itself is no block. */
  lemma {:induction false} WordIsKept(word: string)
    requires word == "a" || word == "b"
    ensures DriveFrom([Raw(word)], 0) == Some([Raw(word)])
  {
    var ts := [Raw(word)];
    assert LeadingSpaces(word) == 0 && DigitRun(word) == 0 && HashRun(word) == 0 && !IsRuleMark(word[0]);
    assert MatchItem(word, 0, Bullets(word[0])).None? && MatchItem(word, 0, Numbers).None?;
    assert CodeRun(ts, 0) == [];
    assert Recognize(ts, 0) == NoBlock;
    assert DriveFrom(ts, 1) == Some([]);
    assert [Raw(word)] + [] == [Raw(word)];
  }

  lemma {:induction false} QuoteThenText(ts: seq<Tok>)
    requires ts == [Raw("> a"), Raw("b")]
    ensures Recognize(ts, 0) == Block(Quote(1, [Raw("a")]), 1)
  {
    hide MatchQuote, MatchList, MatchHash, IsRule, IsUnderline;
    QuoteLineOf("> a", "a");
    BIsNoContinuation();
    assert QuoteRun(ts, 1, 1) == Block([], 1);
    assert [Raw("a")] + [] == [Raw("a")];
  }

  lemma {:induction false} BIsNoContinuation()
    ensures MatchContinuation("b", 1).None? && !IsUnderline("b")
  {
    LeadingIs("b", 0);
  }

  /** A quote directly followed by text: the text is lost. */
  lemma {:induction false} TextAfterQuoteIsLost()
    ensures DriveFrom([Raw("> a"), Raw("b")], 0) == Some([Quote(1, [Raw("a")])])
  {
    hide Recognize;
    var ts := [Raw("> a"), Raw("b")];
    QuoteThenText(ts);
    WordIsKept("a");
    assert DriveFrom(ts, 2) == Some([]);
    assert [Quote(1, [Raw("a")])] + [] == [Quote(1, [Raw("a")])];
  }

  lemma {:induction false} PlusLine(line: string)
    requires line == "+ c"
    ensures LeadingSpaces(line) == 0 && !StartsSublist(line, 0)
    ensures MatchItem(line, 0, Bullets('*')).None? && MatchList(line).Some?
  {
    LeadingIs(line, 0);
    LeadingIs(line[1..], 1);
    assert BulletContent(line[1..]) == Some("c");
  }

  /** The loop of a list of stars, from its second item on, with a plus line behind. */
  lemma {:induction false} StarsThenPlus(ts: seq<Tok>, s: Items)
    requires ts == [Raw("* a"), Raw("* b"), Raw("+ c")]
    requires s == Items([], 0, [Raw("a")], 1, false)
    ensures ListRun(ts, 1, 0, Bullets('*'), s) ==
      Block(Items([Item(0, [Raw("a")]), Item(1, [Raw("b")])], 1, [], 2, false), 2)
  {
    hide MatchList, MatchItem, StartsSublist, ListTurn;
    assert "* b" == "* " + "b";
    BulletLine("b");
    PlusLine("+ c");
    StarTurns(ts, s);
    var t := NextItem(s, 1, "b");
    assert t == Items([Item(0, [Raw("a")])], 1, [Raw("b")], 2, false);
    PlusStops(ts, t);
    assert FinishItem(t).done == [Item(0, [Raw("a")]), Item(1, [Raw("b")])];
    assert ListRun(ts, 2, 0, Bullets('*'), t) == Block(FinishItem(t), 2);
  }

  lemma {:induction false} StarTurns(ts: seq<Tok>, s: Items)
    requires ts == [Raw("* a"), Raw("* b"), Raw("+ c")] && MatchItem("* b", 0, Bullets('*')) == Some("b")
    ensures ListTurn(ts, 1, 0, Bullets('*'), s) == Go(2, NextItem(s, 1, "b"))
  {
    hide MatchList, MatchItem;
    LeadingIs("* b", 0);
    assert !StartsSublist("* b", 0);
    assert TurnOnLine(ts, 1, "* b", 0, Bullets('*'), s) == Go(2, NextItem(s, 1, "b"));
  }

  lemma {:induction false} PlusStops(ts: seq<Tok>, s: Items)
    requires ts == [Raw("* a"), Raw("* b"), Raw("+ c")]
    ensures ListTurn(ts, 2, 0, Bullets('*'), s) == Stop(2)
  {
    hide MatchList, MatchItem, StartsSublist;
    PlusLine("+ c");
    assert TurnOnLine(ts, 2, "+ c", 0, Bullets('*'), s) == Stop(2);
  }

  /** A list of stars directly followed by a line with another bullet: the line is lost. */
  lemma {:induction false} ItemAfterOtherListIsLost()
    ensures Recognize([Raw("* a"), Raw("* b"), Raw("+ c")], 0) ==
      Block(List(Bullets('*'), false, 0, [Item(0, [Raw("a")]), Item(1, [Raw("b")])]), 2)
    ensures DriveFrom([Raw("* a"), Raw("* b"), Raw("+ c")], 0) ==
      Some([List(Bullets('*'), false, 0, [Item(0, [Raw("a")]), Item(1, [Raw("b")])])])
  {
    hide ListRun, MatchList, MatchItem, DriveFrom;
    var ts := [Raw("* a"), Raw("* b"), Raw("+ c")];
    assert "* a" == "* " + "a";
    BulletLine("a");
    StarsThenPlus(ts, Items([], 0, [Raw("a")], 1, false));
    StarIsNoHeaderOrRule(ts);
    ItemsDriven(ts);
  }

  lemma {:induction false} StarIsNoHeaderOrRule(ts: seq<Tok>)
    requires |ts| > 1 && ts[0] == Raw("* a") && ts[1] == Raw("* b")
    ensures ParseHeader(ts, 0) == NoBlock && ParseRule(ts, 0) == NoBlock
  {
    assert HashRun("* a") == 0 && "* a"[2] == 'a' && !IsRuleMark('a') && "* b"[0] == '*';
  }

  lemma {:induction false} ItemsDriven(ts: seq<Tok>)
    requires |ts| == 3 && HasText(ts[0])
    requires Recognize(ts, 0) == Block(List(Bullets('*'), false, 0, [Item(0, [Raw("a")]), Item(1, [Raw("b")])]), 2)
    ensures DriveFrom(ts, 0) == Some([Recognize(ts, 0).value])
  {
    hide Recognize;
    WordIsKept("a");
    WordIsKept("b");
    var items := [Item(0, [Raw("a")]), Item(1, [Raw("b")])];
    assert DriveInside(items[0]) == Some(items[0]) && DriveInside(items[1]) == Some(items[1]);
    assert DriveFrom(items, 2) == Some([]);
    assert DriveFrom(items, 1) == Some([items[1]]) by { assert [items[1]] + [] == [items[1]]; }
    assert DriveFrom(items, 0) == Some(items) by { assert [items[0]] + [items[1]] == items; }
    var list := Recognize(ts, 0).value;
    assert DriveInside(list) == Some(list);
    assert DriveFrom(ts, 3) == Some([]);
    assert [list] + [] == [list];
  }

  // ---------------------------------------------------------------------------------------
  // A failure inside a block
  // ---------------------------------------------------------------------------------------

  /** In an item, a quote in front of a sub-list: the quote asks the list for its text. */
  lemma {:induction false} QuoteAsksList(subs: seq<Tok>)
    requires |subs| == 2 && subs[0] == Raw("> q") && subs[1].List?
    ensures DriveFrom(subs, 0) == None
  {
    hide MatchQuote, MatchList, MatchHash, IsRule, MatchContinuation, Recognize;
    QuoteLineOf("> q", "q");
    assert QuoteRun(subs, 1, 1) == Undefined;
    assert Recognize(subs, 0) == Undefined by { QuoteFails(subs); }
  }

  lemma {:induction false} QuoteFails(subs: seq<Tok>)
    requires |subs| == 2 && subs[0] == Raw("> q") && subs[1].List? && QuoteRun(subs, 1, 1) == Undefined
    ensures Recognize(subs, 0) == Undefined
  {
    hide MatchQuote, MatchList, MatchHash, IsRule, QuoteRun;
    QuoteLineOf("> q", "q");
  }

  /** A quote mark, a space and a word. */
  lemma {:induction false} QuoteLineOf(s: string, word: string)
    requires s == "> " + word && |word| == 1 && word[0] != ' ' && word[0] != '>'
    ensures MatchQuote(s) == Some(QuoteStart(1, word))
    ensures MatchHash(s).None? && !IsRule(s) && MatchList(s).None?
  {
    var rest := s[1..];
    LeadingIs(s, 0);
    LeadingIs(rest, 1);
    assert s[0] == '>' && rest[0] == ' ' && rest[1] == word[0] && rest[1..] == word;
    assert AfterQuoteMark(s) == Some(rest) && AfterQuoteMark(rest).None?;
    assert HashRun(s) == 0 && s[0..] == s && DigitRun(s) == 0;
  }

  lemma {:induction false} DeepStar(line: string)
    requires line == "  * b"
    ensures MatchList(line) == Some(ListStart(2, Bullets('*'), "b")) && StartsSublist(line, 0)
  {
    LeadingIs(line, 2);
    LeadingIs(line[3..], 1);
    assert line[3..] == " b" && BulletContent(line[3..]) == Some("b");
  }

  lemma {:induction false} DeepList(ts: seq<Tok>)
    requires ts == [Raw("* > q"), Raw("  * b")]
    ensures ParseList(ts, 1, true) == Block(List(Bullets('*'), false, 2, [Item(1, [Raw("b")])]), 2)
  {
    hide MatchList, StartsSublist, ListTurn;
    DeepStar("  * b");
    var s := Items([], 1, [Raw("b")], 1, false);
    assert ListRun(ts, 2, 2, Bullets('*'), s) == Block(FinishItem(s), 2);
    assert [] + [Item(1, [Raw("b")])] == [Item(1, [Raw("b")])];
  }

  lemma {:induction false} QuoteItem(ts: seq<Tok>, deep: Tok)
    requires ts == [Raw("* > q"), Raw("  * b")] && ParseList(ts, 1, true) == Block(deep, 2)
    ensures ParseList(ts, 0, false) == Block(List(Bullets('*'), false, 0, [Item(0, [Raw("> q"), deep])]), 2)
  {
    hide MatchList, StartsSublist, ListRun, ParseList;
    assert "* > q" == "* " + "> q";
    BulletLine("> q");
    DeepStar("  * b");
    QuoteItemRuns(ts, deep);
    QuoteListAnswer(ts);
  }

  lemma {:induction false} QuoteItemRuns(ts: seq<Tok>, deep: Tok)
    requires ts == [Raw("* > q"), Raw("  * b")] && ParseList(ts, 1, true) == Block(deep, 2)
    requires StartsSublist("  * b", 0)
    ensures ListRun(ts, 1, 0, Bullets('*'), Items([], 0, [Raw("> q")], 1, false)) ==
      Block(Items([Item(0, [Raw("> q"), deep])], 0, [], 2, false), 2)
  {
    hide StartsSublist, ListTurn, ParseList;
    var s := Items([], 0, [Raw("> q")], 1, false);
    var t := Items([], 0, [Raw("> q"), deep], 2, false);
    SublistTurn(ts, s, deep);
    assert FinishItem(t).done == [Item(0, [Raw("> q"), deep])];
    assert ListRun(ts, 2, 0, Bullets('*'), t) == Block(FinishItem(t), 2);
  }

  lemma {:induction false} SublistTurn(ts: seq<Tok>, s: Items, deep: Tok)
    requires ts == [Raw("* > q"), Raw("  * b")] && ParseList(ts, 1, true) == Block(deep, 2)
    requires StartsSublist("  * b", 0) && s == Items([], 0, [Raw("> q")], 1, false)
    ensures ListTurn(ts, 1, 0, Bullets('*'), s) == Go(2, Items([], 0, [Raw("> q"), deep], 2, false))
  {
    hide MatchList, StartsSublist, ParseList;
    assert [Raw("> q")] + [deep] == [Raw("> q"), deep];
    assert TakeSublist(ts, 1, s, false) == Go(2, Items([], 0, [Raw("> q"), deep], 2, false));
    assert TurnOnLine(ts, 1, "  * b", 0, Bullets('*'), s) == TakeSublist(ts, 1, s, false);
  }

  lemma {:induction false} QuoteListAnswer(ts: seq<Tok>)
    requires |ts| == 2 && ts[0] == Raw("* > q") && MatchList("* > q") == Some(ListStart(0, Bullets('*'), "> q"))
    requires ListRun(ts, 1, 0, Bullets('*'), Items([], 0, [Raw("> q")], 1, false)).Block?
    requires ListRun(ts, 1, 0, Bullets('*'), Items([], 0, [Raw("> q")], 1, false)).value.count > 1
    ensures var r := ListRun(ts, 1, 0, Bullets('*'), Items([], 0, [Raw("> q")], 1, false));
      ParseList(ts, 0, false) == Block(List(Bullets('*'), r.value.paragraphs, 0, r.value.done), r.next)
  {
    hide MatchList, ListRun;
  }

  /** The lines themselves are plain, so the list parser takes them; the driver fails inside the list. */
  lemma {:induction false} QuoteBeforeSublistFails()
    ensures DriveFrom([Raw("* > q"), Raw("  * b")], 0) == None
  {
    hide ParseList, Recognize;
    var ts := [Raw("* > q"), Raw("  * b")];
    DeepList(ts);
    var deep := List(Bullets('*'), false, 2, [Item(1, [Raw("b")])]);
    QuoteItem(ts, deep);
    FirstIsList(ts);
    var subs := [Raw("> q"), deep];
    QuoteAsksList(subs);
    var items := [Item(0, subs)];
    assert DriveInside(items[0]) == None;
    assert DriveFrom(items, 0) == None;
    assert DriveInside(List(Bullets('*'), false, 0, items)) == None;
  }

  lemma {:induction false} FirstIsList(ts: seq<Tok>)
    requires ts == [Raw("* > q"), Raw("  * b")] && ParseList(ts, 0, false).Block?
    ensures Recognize(ts, 0) == ParseList(ts, 0, false)
  {
    hide ParseList;
    assert HashRun("* > q") == 0 && "* > q"[2] == '>' && !IsRuleMark('>') && "  * b"[0] == ' ';
  }
}
