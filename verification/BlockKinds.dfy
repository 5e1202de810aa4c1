/** Which kind of block starts at a line, and what headers and code blocks hold. */
module BlockKinds {
  import opened BlockExpressions
  import opened BlockLines
  import opened Blocks
  import opened Options

  // ---------------------------------------------------------------------------------------
  // Headers
  // ---------------------------------------------------------------------------------------

  ghost predicate IsHashLine(s: string, level: nat, text: string) {
    1 <= level <= 6 && exists k: nat, a: nat, b: nat :: HashLineIs(s, level, k, text, a, b)
  }

  /** A line of `=` makes the line above it a header of level 1, a line of `-` one of level 2. */
  predicate IsUnderlined(ts: seq<Tok>, i: nat, level: nat) {
    && i + 1 < |ts| && CanContainMarkup(ts[i]) && CanContainMarkup(ts[i + 1])
    && var u := ts[i + 1].text;
       u != "" && (level == 1 || level == 2) && u == Times(if level == 1 then '=' else '-', |u|)
  }

  ghost predicate HasHashes(ts: seq<Tok>, i: nat) {
    i < |ts| && CanContainMarkup(ts[i]) && exists level, text :: IsHashLine(ts[i].text, level, text)
  }

  lemma {:induction false} HashesExactly(s: string, level: nat, text: string)
    ensures MatchHash(s) == Some(Heading(level, text)) <==> IsHashLine(s, level, text)
  {
    hide HashLineIs, MatchHash;
    HashLine(s, level, text);
  }

  lemma {:induction false} SomeHashes(s: string)
    ensures MatchHash(s).Some? <==> exists level, text :: IsHashLine(s, level, text)
  {
    hide MatchHash, IsHashLine;
    if MatchHash(s).Some? {
      HashesExactly(s, MatchHash(s).value.level, MatchHash(s).value.text);
    }
    if exists level, text :: IsHashLine(s, level, text) {
      var level, text :| IsHashLine(s, level, text);
      HashesExactly(s, level, text);
    }
  }

  lemma {:induction false} UnderlineExactly(ts: seq<Tok>, i: nat, level: nat)
    requires i + 1 < |ts| && CanContainMarkup(ts[i]) && CanContainMarkup(ts[i + 1])
    ensures var u := ts[i + 1].text;
      IsUnderlined(ts, i, level) <==> IsUnderline(u) && level == if u[0] == '=' then 1 else 2
  {
    var u := ts[i + 1].text;
    UnderLine(u);
    if IsUnderlined(ts, i, level) {
      assert u[0] == if level == 1 then '=' else '-';
    }
  }

  /** A header has as many levels as hashes; without hashes, the line under it decides. */
  lemma {:induction false} HeaderExactly(ts: seq<Tok>, i: nat, level: nat, text: string, next: nat)
    requires i < |ts|
    ensures ParseHeader(ts, i) == Block(Header(level, text), next) <==>
      || (CanContainMarkup(ts[i]) && IsHashLine(ts[i].text, level, text) && next == i)
      || (!HasHashes(ts, i) && IsUnderlined(ts, i, level) && text == ts[i].text && next == i + 1)
  {
    hide MatchHash, IsUnderline, IsUnderlined, IsHashLine;
    if CanContainMarkup(ts[i]) {
      HashesExactly(ts[i].text, level, text);
      SomeHashes(ts[i].text);
      if i + 1 < |ts| && CanContainMarkup(ts[i + 1]) {
        UnderlineExactly(ts, i, level);
      } else {
        NotUnderlined(ts, i, level);
      }
    } else {
      NotUnderlined(ts, i, level);
    }
  }

  lemma {:induction false} NotUnderlined(ts: seq<Tok>, i: nat, level: nat)
    requires i + 1 >= |ts| || !CanContainMarkup(ts[i]) || !CanContainMarkup(ts[i + 1])
    ensures !IsUnderlined(ts, i, level)
  {
  }

  // ---------------------------------------------------------------------------------------
  // Code
  // ---------------------------------------------------------------------------------------

  /** A line of code has four spaces in front of it. */
  lemma {:induction false} CodeLineIs(t: Tok, u: string)
    ensures CodeLine(t) == Some(u) <==> CanContainMarkup(t) && t.text == "    " + u
  {
    assert "    " == Spaces(4);
    if CanContainMarkup(t) {
      DeepLine(t.text, 4, u);
    }
  }

  /** The text of a code block: each line ends with a line feed, a blank one has nothing else. */
  lemma {:induction false} CodeTextIs(lines: seq<Option<string>>, t: string)
    ensures CodeText([]) == ""
    ensures CodeText(lines + [None]) == CodeText(lines) + "\n"
    ensures CodeText(lines + [Some(t)]) == CodeText(lines) + t + "\n"
  {
    assert (lines + [None])[..|lines|] == lines && (lines + [Some(t)])[..|lines|] == lines;
    assert CodeText(lines) + "" == CodeText(lines);
    assert CodeText(lines) + (t + "\n") == CodeText(lines) + t + "\n";
  }

  // ---------------------------------------------------------------------------------------
  // Kinds
  // ---------------------------------------------------------------------------------------

  ghost predicate AtHeading(ts: seq<Tok>, i: nat) {
    HasHashes(ts, i) || IsUnderlined(ts, i, 1) || IsUnderlined(ts, i, 2)
  }

  predicate AtRule(ts: seq<Tok>, i: nat) {
    i < |ts| && CanContainMarkup(ts[i]) && IsRule(ts[i].text)
  }

  /** A list line that is not as deep as code. */
  predicate AtList(ts: seq<Tok>, i: nat) {
    i < |ts| && CanContainMarkup(ts[i]) && MatchList(ts[i].text).Some? && LeadingSpaces(ts[i].text) < 4
  }

  predicate AtQuote(ts: seq<Tok>, i: nat) {
    i < |ts| && CanContainMarkup(ts[i]) && MatchQuote(ts[i].text).Some?
  }

  predicate AtCode(ts: seq<Tok>, i: nat) {
    i < |ts| && CodeLine(ts[i]).Some?
  }

  lemma {:induction false} HeadingExactly(ts: seq<Tok>, i: nat)
    requires i < |ts|
    ensures ParseHeader(ts, i).Block? <==> AtHeading(ts, i)
    ensures ParseHeader(ts, i).Block? ==> ParseHeader(ts, i).value.Header?
  {
    hide MatchHash, IsUnderline, IsUnderlined, IsHashLine;
    if CanContainMarkup(ts[i]) {
      SomeHashes(ts[i].text);
      if i + 1 < |ts| && CanContainMarkup(ts[i + 1]) {
        UnderlineExactly(ts, i, 1);
        UnderlineExactly(ts, i, 2);
      } else {
        NotUnderlined(ts, i, 1);
        NotUnderlined(ts, i, 2);
      }
    } else {
      NotUnderlined(ts, i, 1);
      NotUnderlined(ts, i, 2);
    }
  }

  lemma {:induction false} ListLineStarts(s: string)
    requires MatchList(s).Some?
    ensures var n := LeadingSpaces(s);
      n == MatchList(s).value.indent && n < |s| && (IsBullet(s[n]) || IsDigit(s[n]))
  {
    hide LeadingSpaces, BulletContent, NumberContent, DigitRun;
    var n := LeadingSpaces(s);
    var u := s[n..];
    if !IsBullet(s[n]) {
      assert DigitRun(u) > 0 && u[0] == s[n];
    }
  }

  lemma {:induction false} QuoteLineStarts(s: string)
    requires MatchQuote(s).Some?
    ensures var n := LeadingSpaces(s); n <= 3 && n < |s| && s[n] == '>'
  {
    hide LeadingSpaces;
  }

  /** Quote lines, list lines, rules, and code lines: only a list line may also be a rule. */
  lemma {:induction false} LinesDiffer(ts: seq<Tok>, i: nat)
    ensures AtQuote(ts, i) ==> !AtList(ts, i) && !AtRule(ts, i) && !AtCode(ts, i)
    ensures AtCode(ts, i) ==> !AtList(ts, i) && !AtRule(ts, i)
  {
    hide LeadingSpaces, MatchList, MatchQuote, RuleMarks;
    if AtQuote(ts, i) {
      QuoteLineStarts(ts[i].text);
    }
    if AtList(ts, i) {
      ListLineStarts(ts[i].text);
    }
  }

  /**
   * The kind of a block is told by its first lines: a heading comes first, then a rule; a quote and
   * code are neither; and what is left is a list, if it has a list line.
   */
  lemma {:induction false} KindExactly(ts: seq<Tok>, i: nat)
    requires i < |ts|
    ensures var r := Recognize(ts, i);
      && (r.Block? ==>
            && (r.value.Header? <==> AtHeading(ts, i))
            && (r.value.Rule? <==> !AtHeading(ts, i) && AtRule(ts, i))
            && (r.value.Quote? <==> !AtHeading(ts, i) && AtQuote(ts, i))
            && (r.value.Code? <==> !AtHeading(ts, i) && AtCode(ts, i))
            && (r.value.List? <==> !AtHeading(ts, i) && !AtRule(ts, i) && !AtQuote(ts, i) && !AtCode(ts, i))
            && (r.value.List? ==> AtList(ts, i)))
      && (r.NoBlock? ==> !AtHeading(ts, i) && !AtRule(ts, i) && !AtQuote(ts, i) && !AtCode(ts, i))
  {
    hide ParseHeader, AtHeading, MatchList, MatchQuote, IsRule, CodeLine, ListRun, QuoteRun, LeadingSpaces;
    HeadingExactly(ts, i);
    LinesDiffer(ts, i);
    CodeRunStarts(ts, i);
    ListNeedsLine(ts, i);
  }

  lemma {:induction false} CodeRunStarts(ts: seq<Tok>, i: nat)
    requires i < |ts|
    ensures ParseCode(ts, i).Block? <==> AtCode(ts, i)
    ensures ParseCode(ts, i).Block? ==> ParseCode(ts, i).value.Code?
    ensures !ParseCode(ts, i).Undefined?
  {
    hide AfterSpaces;
  }

  lemma {:induction false} ListNeedsLine(ts: seq<Tok>, i: nat)
    requires i < |ts|
    ensures !ParseList(ts, i, false).NoBlock? ==> AtList(ts, i)
    ensures ParseList(ts, i, false).Block? ==> ParseList(ts, i, false).value.List?
  {
    hide LeadingSpaces, MatchList, ListRun, MatchItem;
    if CanContainMarkup(ts[i]) && MatchList(ts[i].text).Some? {
      ListLineStarts(ts[i].text);
    }
  }
}
